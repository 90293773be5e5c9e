/** The durable event journal of one conversation (ai_conversation_events).
  * Appending allocates the next sequence and prunes by age and by bytes in the
  * same transaction; readers page through what is left.  Instants are
  * milliseconds.
  */
module EventJournal {
  import opened Wrappers

  type Id = string

  datatype Field = Text | Reasoning

  datatype RunStatus = Running | Succeeded | RunFailed | RunCancelled

  datatype Body =
    | Delta(field: Field, delta: string)
    | ToolStatus(runId: Id, status: RunStatus)
    | Usage
    | ApprovalRequested
    | Collaboration
    | Completed
    | Failed
    | Cancelled

  datatype Event = Event(
    sequence: nat, generationId: Id, messageId: Id, body: Body, payloadLength: nat, occurredAt: int)

  datatype JournalError = Invalid | SequenceExhausted | EventItemTooLarge | ResponsePageTooLarge

  datatype StopReason = Watermark | CursorExpired | ItemLimit | ByteBudget

  datatype Page = Page(
    items: seq<Event>, nextSequence: nat, highWatermark: nat, earliest: nat,
    hasMore: bool, resetRequired: bool, stopReason: StopReason)

  const MAX_SAFE_INTEGER: nat := 9007199254740991
  const MAXIMUM_PERSISTENT_EVENT_BYTES: nat := 4194304
  const EVENT_ROW_OVERHEAD: nat := 192
  const MAXIMUM_EVENT_PAYLOAD: nat := 65536
  const MAXIMUM_REPLAY_AGE: int := 604800000
  const MAXIMUM_EVENT_PAGE: nat := 500
  const MAXIMUM_RPC_PAYLOAD: nat := 57344

  // ----- specification functions -----

  ghost predicate Ordered(rows: seq<Event>) {
    && (forall i :: 0 <= i < |rows| ==> rows[i].sequence > 0)
    && (forall i, j :: 0 <= i < j < |rows| ==> rows[i].sequence < rows[j].sequence)
  }

  ghost predicate Contiguous(rows: seq<Event>) {
    forall i :: 0 <= i < |rows| ==> rows[i].sequence == rows[0].sequence + i
  }

  ghost predicate TimesNeverDecrease(rows: seq<Event>) {
    forall i, j :: 0 <= i < j < |rows| ==> rows[i].occurredAt <= rows[j].occurredAt
  }

  ghost predicate PayloadsBounded(rows: seq<Event>) {
    forall i :: 0 <= i < |rows| ==> rows[i].payloadLength <= MAXIMUM_EVENT_PAYLOAD
  }

  function Earliest(rows: seq<Event>): nat {
    if rows == [] then 0 else rows[0].sequence
  }

  function Latest(rows: seq<Event>): nat {
    if rows == [] then 0 else rows[|rows| - 1].sequence
  }

  function TotalBytes(rows: seq<Event>): nat {
    if rows == [] then 0 else rows[0].payloadLength + EVENT_ROW_OVERHEAD + TotalBytes(rows[1..])
  }

  function Unexpired(rows: seq<Event>, cutoff: int): (kept: seq<Event>) {
    if rows == [] then []
    else if rows[0].occurredAt < cutoff then Unexpired(rows[1..], cutoff)
    else [rows[0]] + Unexpired(rows[1..], cutoff)
  }

  function Trimmed(rows: seq<Event>): seq<Event> {
    if TotalBytes(rows) <= MAXIMUM_PERSISTENT_EVENT_BYTES then rows else Trimmed(rows[1..])
  }

  function Retained(rows: seq<Event>, now: int): seq<Event> {
    Trimmed(Unexpired(rows, now - MAXIMUM_REPLAY_AGE))
  }

  /** The journal after one append; the allocated sequence is Latest + 1. */
  function Appended(rows: seq<Event>, event: Event): seq<Event> {
    Retained(rows + [event.(sequence := Latest(rows) + 1)], event.occurredAt)
  }

  function After(rows: seq<Event>, after: nat): seq<Event> {
    if rows == [] then []
    else if rows[0].sequence > after then rows
    else After(rows[1..], after)
  }

  predicate CursorLost(rows: seq<Event>, after: nat) {
    after > Latest(rows) || (Earliest(rows) > 1 && after < Earliest(rows) - 1)
  }

  // ----- retention -----

  lemma {:induction false} UnexpiredStep(rows: seq<Event>, last: Event, cutoff: int)
    ensures Unexpired(rows + [last], cutoff) ==
            Unexpired(rows, cutoff) + (if last.occurredAt < cutoff then [] else [last])
  {
    if rows == [] {
      assert rows + [last] == [last];
      assert [last][1..] == [];
    } else {
      assert (rows + [last])[1..] == rows[1..] + [last];
      UnexpiredStep(rows[1..], last, cutoff);
    }
  }

  lemma {:induction false} UnexpiredMember(rows: seq<Event>, cutoff: int, e: Event)
    ensures e in Unexpired(rows, cutoff) <==> e in rows && e.occurredAt >= cutoff
  {
    if rows != [] {
      UnexpiredMember(rows[1..], cutoff, e);
      assert rows == [rows[0]] + rows[1..];
    }
  }

  lemma {:induction false} UnexpiredOrdered(rows: seq<Event>, cutoff: int)
    requires Ordered(rows)
    ensures Ordered(Unexpired(rows, cutoff))
  {
    if rows != [] {
      var rest := Unexpired(rows[1..], cutoff);
      UnexpiredOrdered(rows[1..], cutoff);
      forall i | 0 <= i < |rest| ensures rest[i] in rows[1..] {
        UnexpiredMember(rows[1..], cutoff, rest[i]);
      }
      assert Unexpired(rows, cutoff) == if rows[0].occurredAt < cutoff then rest else [rows[0]] + rest;
      hide Unexpired;
      OrderedCons(rows, rest);
    }
  }

  lemma OrderedCons(rows: seq<Event>, rest: seq<Event>)
    requires rows != [] && Ordered(rows) && Ordered(rest) && forall i :: 0 <= i < |rest| ==> rest[i] in rows[1..]
    ensures Ordered([rows[0]] + rest)
  {
    forall i | 0 <= i < |rest| ensures rows[0].sequence < rest[i].sequence && rest[i].sequence > 0 {
      assert rest[i] in rows[1..];
    }
  }

  /** The byte loop keeps exactly the longest suffix that fits the budget. */
  lemma {:induction false} TrimmedIsLongestAffordableSuffix(rows: seq<Event>) returns (k: nat)
    ensures k <= |rows| && Trimmed(rows) == rows[k..]
    ensures TotalBytes(rows[k..]) <= MAXIMUM_PERSISTENT_EVENT_BYTES
    ensures forall j :: 0 <= j < k ==> TotalBytes(rows[j..]) > MAXIMUM_PERSISTENT_EVENT_BYTES
  {
    if TotalBytes(rows) <= MAXIMUM_PERSISTENT_EVENT_BYTES {
      k := 0;
      assert rows[0..] == rows;
    } else {
      var inner := TrimmedIsLongestAffordableSuffix(rows[1..]);
      k := inner + 1;
      assert rows[k..] == rows[1..][inner..];
      assert rows[0..] == rows;
      forall j | 0 <= j < k ensures TotalBytes(rows[j..]) > MAXIMUM_PERSISTENT_EVENT_BYTES {
        if j > 0 {
          assert rows[j..] == rows[1..][j - 1..];
        }
      }
    }
  }

  lemma {:induction false} TrimmedKeepsLast(rows: seq<Event>)
    requires rows != [] && rows[|rows| - 1].payloadLength <= MAXIMUM_EVENT_PAYLOAD
    ensures Trimmed(rows) != [] && Trimmed(rows)[|Trimmed(rows)| - 1] == rows[|rows| - 1]
    ensures TotalBytes(Trimmed(rows)) <= MAXIMUM_PERSISTENT_EVENT_BYTES
  {
    assert |rows| == 1 ==> rows[1..] == [] && TotalBytes(rows) == rows[0].payloadLength + EVENT_ROW_OVERHEAD;
    if TotalBytes(rows) > MAXIMUM_PERSISTENT_EVENT_BYTES {
      TrimmedKeepsLast(rows[1..]);
    }
  }

  /** The newest event survives its own pruning, whatever the timestamps. */
  lemma NewestEventSurvives(rows: seq<Event>, event: Event)
    requires event.payloadLength <= MAXIMUM_EVENT_PAYLOAD
    ensures Appended(rows, event) != []
    ensures Appended(rows, event)[|Appended(rows, event)| - 1] == event.(sequence := Latest(rows) + 1)
    ensures Latest(Appended(rows, event)) == Latest(rows) + 1
    ensures TotalBytes(Appended(rows, event)) <= MAXIMUM_PERSISTENT_EVENT_BYTES
  {
    var stored := event.(sequence := Latest(rows) + 1);
    UnexpiredStep(rows, stored, event.occurredAt - MAXIMUM_REPLAY_AGE);
    TrimmedKeepsLast(Unexpired(rows + [stored], event.occurredAt - MAXIMUM_REPLAY_AGE));
  }

  lemma AppendedOrdered(rows: seq<Event>, event: Event)
    requires Ordered(rows)
    ensures Ordered(Appended(rows, event))
    ensures forall e :: e in Appended(rows, event) ==> e in rows || e == event.(sequence := Latest(rows) + 1)
  {
    var stored := event.(sequence := Latest(rows) + 1);
    var cutoff := event.occurredAt - MAXIMUM_REPLAY_AGE;
    var grown := rows + [stored];
    UnexpiredOrdered(grown, cutoff);
    var kept := Unexpired(grown, cutoff);
    var k := TrimmedIsLongestAffordableSuffix(kept);
    forall e | e in kept[k..] ensures e in rows || e == stored {
      assert e in kept;
      UnexpiredMember(grown, cutoff, e);
    }
  }

  /** The journal after every event of `events` was appended in turn. */
  function AppendedAll(rows: seq<Event>, events: seq<Event>): seq<Event> {
    if events == [] then rows
    else Appended(AppendedAll(rows, events[..|events| - 1]), events[|events| - 1])
  }

  /** Sequences are 1, 2, 3, ... and never reused: after n appends to an empty
    * journal the high watermark is n, so the next event becomes n + 1. */
  lemma {:induction false} SequencesAreNeverReused(events: seq<Event>)
    requires PayloadsBounded(events)
    ensures Latest(AppendedAll([], events)) == |events|
    ensures Ordered(AppendedAll([], events))
    ensures forall e :: e in AppendedAll([], events) ==>
      1 <= e.sequence <= |events| && e == events[e.sequence - 1].(sequence := e.sequence)
  {
    if events != [] {
      var n := |events| - 1;
      SequencesAreNeverReused(events[..n]);
      var before := AppendedAll([], events[..n]);
      NewestEventSurvives(before, events[n]);
      AppendedOrdered(before, events[n]);
      var after := Appended(before, events[n]);
      assert after == AppendedAll([], events);
      hide Appended, AppendedAll, TotalBytes, Ordered;
      forall e | e in after
        ensures 1 <= e.sequence <= |events| && e == events[e.sequence - 1].(sequence := e.sequence)
      {
        if e in before {
          assert e == events[..n][e.sequence - 1].(sequence := e.sequence);
        }
      }
    }
  }

  /** No expired row follows a row that stays. */
  ghost predicate ExpiresInOrder(rows: seq<Event>, cutoff: int) {
    forall i, j :: 0 <= i < j < |rows| && rows[j].occurredAt < cutoff ==> rows[i].occurredAt < cutoff
  }

  lemma ExpiryAfterKeptHead(rows: seq<Event>, cutoff: int)
    requires rows != [] && Contiguous(rows)
    requires rows[0].occurredAt >= cutoff && rows[|rows| - 1].occurredAt >= cutoff
    ensures Contiguous(Unexpired(rows, cutoff)) <==> ExpiresInOrder(rows, cutoff)
  {
    var kept := Unexpired(rows, cutoff);
    UnexpiredLengthAndLast(rows, cutoff);
    assert kept[0] == rows[0];
    if forall j :: 0 <= j < |rows| ==> rows[j].occurredAt >= cutoff {
      UnexpiredAll(rows, cutoff);
    } else {
      var j :| 0 <= j < |rows| && rows[j].occurredAt < cutoff;
      assert 0 < j && !ExpiresInOrder(rows, cutoff);
      assert |kept| < |rows| && kept[|kept| - 1].sequence == rows[0].sequence + |rows| - 1;
    }
  }

  lemma ExpiryAfterDroppedHead(rows: seq<Event>, cutoff: int)
    requires rows != [] && rows[0].occurredAt < cutoff
    ensures ExpiresInOrder(rows, cutoff) <==> ExpiresInOrder(rows[1..], cutoff)
  {
    var tail := rows[1..];
    assert forall i :: 0 <= i < |tail| ==> tail[i] == rows[i + 1];
    if ExpiresInOrder(tail, cutoff) {
      forall i, j | 0 <= i < j < |rows| && rows[j].occurredAt < cutoff ensures rows[i].occurredAt < cutoff {
        if i > 0 {
          assert tail[j - 1] == rows[j] && tail[i - 1] == rows[i];
        }
      }
    }
  }

  /** Pruning by age keeps one interval exactly when rows expire in order. */
  lemma {:induction false} ExpiryKeepsIntervalIff(rows: seq<Event>, cutoff: int)
    requires rows != [] && Contiguous(rows) && rows[|rows| - 1].occurredAt >= cutoff
    ensures Contiguous(Unexpired(rows, cutoff)) <==> ExpiresInOrder(rows, cutoff)
  {
    if rows[0].occurredAt >= cutoff {
      ExpiryAfterKeptHead(rows, cutoff);
    } else {
      var tail := rows[1..];
      assert forall i :: 0 <= i < |tail| ==> tail[i] == rows[i + 1];
      ExpiryAfterDroppedHead(rows, cutoff);
      ExpiryKeepsIntervalIff(tail, cutoff);
    }
  }

  lemma {:induction false} UnexpiredAll(rows: seq<Event>, cutoff: int)
    requires forall j :: 0 <= j < |rows| ==> rows[j].occurredAt >= cutoff
    ensures Unexpired(rows, cutoff) == rows
  {
    if rows != [] {
      UnexpiredAll(rows[1..], cutoff);
      assert rows == [rows[0]] + rows[1..];
    }
  }

  lemma {:induction false} UnexpiredLengthAndLast(rows: seq<Event>, cutoff: int)
    requires rows != [] && rows[|rows| - 1].occurredAt >= cutoff
    ensures Unexpired(rows, cutoff) != []
    ensures Unexpired(rows, cutoff)[|Unexpired(rows, cutoff)| - 1] == rows[|rows| - 1]
    ensures |Unexpired(rows, cutoff)| <= |rows|
    ensures (exists j :: 0 <= j < |rows| && rows[j].occurredAt < cutoff) ==> |Unexpired(rows, cutoff)| < |rows|
  {
    var tail := rows[1..];
    if tail != [] {
      UnexpiredLengthAndLast(tail, cutoff);
      if j :| 0 <= j < |rows| && rows[j].occurredAt < cutoff {
        if j > 0 { assert tail[j - 1] == rows[j]; }
      }
    }
  }

  /** With timestamps that never decrease the retained rows stay one interval
    * ending at the high watermark. */
  lemma AppendKeepsInterval(rows: seq<Event>, event: Event)
    requires Contiguous(rows) && TimesNeverDecrease(rows)
    requires rows != [] ==> rows[|rows| - 1].occurredAt <= event.occurredAt
    ensures Contiguous(Appended(rows, event)) && TimesNeverDecrease(Appended(rows, event))
  {
    var stored := event.(sequence := Latest(rows) + 1);
    var cutoff := event.occurredAt - MAXIMUM_REPLAY_AGE;
    var grown := rows + [stored];
    GrownKeepsInterval(rows, stored);
    InOrderExpires(grown, cutoff);
    hide Contiguous, TimesNeverDecrease, Unexpired, ExpiresInOrder, TotalBytes;
    ExpiryKeepsIntervalIff(grown, cutoff);
    UnexpiredKeepsTimes(grown, cutoff);
    var k := TrimmedIsLongestAffordableSuffix(Unexpired(grown, cutoff));
    SuffixKeepsInterval(Unexpired(grown, cutoff), k);
  }

  lemma GrownKeepsInterval(rows: seq<Event>, stored: Event)
    requires Contiguous(rows) && TimesNeverDecrease(rows) && stored.sequence == Latest(rows) + 1
    requires rows != [] ==> rows[|rows| - 1].occurredAt <= stored.occurredAt
    ensures Contiguous(rows + [stored]) && TimesNeverDecrease(rows + [stored])
  {
  }

  lemma InOrderExpires(rows: seq<Event>, cutoff: int)
    requires TimesNeverDecrease(rows)
    ensures ExpiresInOrder(rows, cutoff)
  {
  }

  lemma SuffixKeepsInterval(rows: seq<Event>, k: nat)
    requires k <= |rows| && Contiguous(rows) && TimesNeverDecrease(rows)
    ensures Contiguous(rows[k..]) && TimesNeverDecrease(rows[k..])
  {
    forall i | 0 <= i < |rows[k..]| ensures rows[k..][i].sequence == rows[k..][0].sequence + i {
      assert rows[k..][i] == rows[k + i] && rows[k..][0] == rows[k];
    }
  }

  lemma {:induction false} UnexpiredKeepsTimes(rows: seq<Event>, cutoff: int)
    requires TimesNeverDecrease(rows)
    ensures TimesNeverDecrease(Unexpired(rows, cutoff))
  {
    if rows != [] {
      var rest := Unexpired(rows[1..], cutoff);
      UnexpiredKeepsTimes(rows[1..], cutoff);
      forall i | 0 <= i < |rest| ensures rest[i] in rows[1..] {
        UnexpiredMember(rows[1..], cutoff, rest[i]);
      }
    }
  }

  /** So over a whole run of appends whose clock does not step back. */
  lemma {:induction false} RunKeepsInterval(events: seq<Event>)
    requires PayloadsBounded(events) && TimesNeverDecrease(events)
    ensures Contiguous(AppendedAll([], events)) && TimesNeverDecrease(AppendedAll([], events))
    ensures var rows := AppendedAll([], events);
      events != [] ==> rows != [] && rows[|rows| - 1] == events[|events| - 1].(sequence := |events|)
  {
    if events != [] {
      var n := |events| - 1;
      var before := AppendedAll([], events[..n]);
      RunKeepsInterval(events[..n]);
      SequencesAreNeverReused(events[..n]);
      AppendKeepsInterval(before, events[n]);
      NewestEventSurvives(before, events[n]);
      hide Appended;
    }
  }

  /** A clock that steps back breaks the interval: event 2 expires while the
    * older event 1 stays, and a reader after 0 finds 1 and then 3. */
  lemma ClockStepBackLeavesHole()
    ensures exists a: Event, b: Event, c: Event ::
      var rows := AppendedAll([], [a, b, c]);
      && PayloadsBounded([a, b, c]) && a.occurredAt > 0 && b.occurredAt > 0 && c.occurredAt > 0
      && |rows| == 2 && rows[0].sequence == 1 && rows[1].sequence == 3
      && !CursorLost(rows, 0)
  {
    var a := Event(0, "", "", Collaboration, 0, 2);
    var b := Event(0, "", "", Collaboration, 0, 1);
    var c := Event(0, "", "", Collaboration, 0, MAXIMUM_REPLAY_AGE + 2);
    var r1, r2, r3 := a.(sequence := 1), b.(sequence := 2), c.(sequence := 3);
    FirstStays(a, r1);
    SecondStays(r1, b, r2);
    ThirdExpiresSecond(r1, r2, c, r3);
    hide Appended, PayloadsBounded;
    assert [a, b, c][..2] == [a, b] && [a, b][..1] == [a] && [a][..0] == [];
    assert AppendedAll([], [a]) == Appended(AppendedAll([], []), a);
    assert AppendedAll([], [a, b]) == Appended(AppendedAll([], [a]), b);
    assert AppendedAll([], [a, b, c]) == Appended(AppendedAll([], [a, b]), c);
    AllLight(a, b, c);
  }

  lemma AllLight(a: Event, b: Event, c: Event)
    requires a.payloadLength == b.payloadLength == c.payloadLength == 0
    ensures PayloadsBounded([a, b, c])
  {
  }

  lemma FirstStays(a: Event, r1: Event)
    requires r1 == a.(sequence := 1) && r1.payloadLength == 0 && r1.occurredAt == 2
    ensures Appended([], a) == [r1]
  {
    UnexpiredAll([r1], 2 - MAXIMUM_REPLAY_AGE);
    LightRowsStay([r1]);
    hide Unexpired, Trimmed;
    assert [] + [r1] == [r1];
  }

  lemma SecondStays(r1: Event, b: Event, r2: Event)
    requires r1.sequence == 1 && r1.payloadLength == 0 && r1.occurredAt == 2
    requires r2 == b.(sequence := 2) && r2.payloadLength == 0 && r2.occurredAt == 1
    ensures Appended([r1], b) == [r1, r2]
  {
    UnexpiredAll([r1, r2], 1 - MAXIMUM_REPLAY_AGE);
    LightRowsStay([r1, r2]);
    hide Unexpired, Trimmed;
    assert [r1] + [r2] == [r1, r2];
  }

  lemma ThirdExpiresSecond(r1: Event, r2: Event, c: Event, r3: Event)
    requires r1.sequence == 1 && r1.payloadLength == 0 && r1.occurredAt == 2
    requires r2.sequence == 2 && r2.occurredAt == 1
    requires r3 == c.(sequence := 3) && r3.payloadLength == 0 && r3.occurredAt == MAXIMUM_REPLAY_AGE + 2
    ensures Appended([r1, r2], c) == [r1, r3]
  {
    UnexpiredStep([r1, r2], r3, 2);
    UnexpiredStep([r1], r2, 2);
    UnexpiredAll([r1], 2);
    LightRowsStay([r1, r3]);
    hide Unexpired, Trimmed;
    assert [r1, r2] + [r3] == [r1, r2, r3];
    assert [r1] + [r2] == [r1, r2] && [r1] + [] == [r1] && [r1] + [r3] == [r1, r3];
  }

  lemma LightRowsStay(rows: seq<Event>)
    requires |rows| <= 2 && PayloadsBounded(rows)
    ensures Trimmed(rows) == rows
  {
    if rows != [] {
      assert TotalBytes(rows) == rows[0].payloadLength + EVENT_ROW_OVERHEAD + TotalBytes(rows[1..]);
      if |rows| == 2 {
        assert TotalBytes(rows[1..]) == rows[1].payloadLength + EVENT_ROW_OVERHEAD + TotalBytes(rows[1..][1..]);
      }
    }
  }

  // ----- reading -----

  lemma {:induction false} AfterIsSuffix(rows: seq<Event>, after: nat) returns (k: nat)
    requires Ordered(rows)
    ensures k <= |rows| && After(rows, after) == rows[k..]
    ensures forall i :: 0 <= i < k ==> rows[i].sequence <= after
    ensures forall i :: k <= i < |rows| ==> rows[i].sequence > after
  {
    if rows == [] || rows[0].sequence > after {
      k := 0;
    } else {
      var inner := AfterIsSuffix(rows[1..], after);
      k := inner + 1;
      assert rows[k..] == rows[1..][inner..];
      forall i | 0 <= i < |rows| ensures i < k <==> rows[i].sequence <= after {
        if i > 0 { assert rows[i] == rows[1..][i - 1]; }
      }
    }
  }

  /** Over an interval, a cursor that passes the reset test can replay every
    * event it has not seen. */
  lemma LiveCursorMissesNothing(rows: seq<Event>, after: nat)
    requires Ordered(rows) && Contiguous(rows) && !CursorLost(rows, after)
    ensures |After(rows, after)| == Latest(rows) - after
    ensures forall i :: 0 <= i < |After(rows, after)| ==> After(rows, after)[i].sequence == after + 1 + i
  {
    var k := AfterIsSuffix(rows, after);
    if rows != [] {
      if k == 0 {
        assert rows[0].sequence == after + 1;
      } else {
        assert rows[k - 1].sequence <= after;
        if k < |rows| {
          assert rows[k].sequence == rows[k - 1].sequence + 1;
        }
      }
    }
  }

  /** So after any run of appends whose clock does not step back, what a cursor
    * that passes the reset test can read is every event appended after it. */
  lemma RunCursorMissesNothing(events: seq<Event>, after: nat)
    requires PayloadsBounded(events) && TimesNeverDecrease(events) && !CursorLost(AppendedAll([], events), after)
    ensures after <= |events|
    ensures After(AppendedAll([], events), after)
      == seq(|events| - after, i requires 0 <= i < |events| - after => events[after + i].(sequence := after + 1 + i))
  {
    hide *;
    var rows := AppendedAll([], events);
    SequencesAreNeverReused(events);
    RunKeepsInterval(events);
    LiveCursorMissesNothing(rows, after);
    var k := AfterIsSuffix(rows, after);
    TailIsHistory(events, rows, After(rows, after), k, after);
  }

  lemma TailIsHistory(events: seq<Event>, rows: seq<Event>, tail: seq<Event>, k: nat, after: nat)
    requires k <= |rows| && tail == rows[k..] && |tail| == |events| - after
    requires forall i :: 0 <= i < |tail| ==> tail[i].sequence == after + 1 + i
    requires forall e :: e in rows ==> 1 <= e.sequence <= |events| && e == events[e.sequence - 1].(sequence := e.sequence)
    ensures tail
      == seq(|events| - after, i requires 0 <= i < |events| - after => events[after + i].(sequence := after + 1 + i))
  {
    forall i | 0 <= i < |tail| ensures tail[i] == events[after + i].(sequence := after + 1 + i) {
      assert rows[k + i] in rows && tail[i] == rows[k + i];
    }
  }

  /** What a successful page holds relative to the rows it was read from. */
  ghost predicate IsPage(rows: seq<Event>, after: nat, page: Page) {
    var tail := After(rows, after);
    && page.highWatermark == Latest(rows)
    && page.earliest == Earliest(rows)
    && page.resetRequired == CursorLost(rows, after)
    && (page.resetRequired ==> page.items == [] && page.nextSequence == after && !page.hasMore)
    && (!page.resetRequired ==>
          && page.items <= tail
          && (tail != [] ==> page.items != [])
          && page.nextSequence == (if page.items == [] then after else page.items[|page.items| - 1].sequence)
          && page.hasMore == (page.nextSequence < page.highWatermark))
  }

  /** Pages read one after another from a fixed journal. */
  ghost predicate PageRun(rows: seq<Event>, after: nat, pages: seq<Page>)
    decreases |pages|
  {
    pages != [] ==>
      && IsPage(rows, after, pages[0])
      && (|pages| > 1 ==> pages[0].hasMore)
      && PageRun(rows, pages[0].nextSequence, pages[1..])
  }

  function Items(pages: seq<Page>): seq<Event> {
    if pages == [] then [] else pages[0].items + Items(pages[1..])
  }

  /** Following nextSequence until no more is signalled yields every row after
    * the cursor once, in order; every page with more to come moves the cursor
    * strictly towards the high watermark, which bounds the number of pages. */
  lemma {:induction false} PagingIsExact(rows: seq<Event>, after: nat, pages: seq<Page>)
    requires Ordered(rows) && pages != [] && PageRun(rows, after, pages) && !CursorLost(rows, after)
    ensures Items(pages) <= After(rows, after)
    ensures !pages[|pages| - 1].hasMore ==> Items(pages) == After(rows, after)
    ensures |pages| <= Latest(rows) - after + 1
    decreases |pages|
  {
    var first, rest := pages[0], pages[1..];
    PageAdvances(rows, after, first);
    assert Items(pages) == first.items + Items(rest);
    if rest == [] {
      assert Items(pages) == first.items;
    } else {
      PagingIsExact(rows, first.nextSequence, rest);
      assert rest[|rest| - 1] == pages[|pages| - 1];
    }
  }

  lemma LastReached(rows: seq<Event>, after: nat)
    requires Ordered(rows) && After(rows, after) == []
    ensures rows != [] ==> rows[|rows| - 1].sequence <= after
  {
    var k := AfterIsSuffix(rows, after);
  }

  /** One page: its items come off the front of what is left, and while more is
    * signalled the cursor has moved and is still behind the watermark. */
  lemma PageAdvances(rows: seq<Event>, after: nat, page: Page)
    requires Ordered(rows) && IsPage(rows, after, page) && !CursorLost(rows, after)
    ensures After(rows, after) == page.items + After(rows, page.nextSequence)
    ensures !CursorLost(rows, page.nextSequence)
    ensures page.hasMore ==> after < page.nextSequence < Latest(rows)
    ensures !page.hasMore ==> After(rows, page.nextSequence) == []
  {
    var tail, n := After(rows, after), |page.items|;
    if n == 0 {
      LastReached(rows, after);
    } else {
      assert page.items == tail[..n] && page.items[n - 1] == tail[n - 1];
      AfterAdvances(rows, after, n);
      hide After, Ordered, CursorLost, Latest;
      assert tail == tail[..n] + tail[n..];
    }
  }

  lemma AfterAdvances(rows: seq<Event>, after: nat, n: nat)
    requires Ordered(rows) && 0 < n <= |After(rows, after)| && !CursorLost(rows, after)
    ensures After(rows, After(rows, after)[n - 1].sequence) == After(rows, after)[n..]
    ensures !CursorLost(rows, After(rows, after)[n - 1].sequence)
    ensures after < After(rows, after)[n - 1].sequence <= Latest(rows)
    ensures After(rows, after)[n - 1].sequence == Latest(rows) <==> n == |After(rows, after)|
  {
    var k := AfterIsSuffix(rows, after);
    var cursor := After(rows, after)[n - 1].sequence;
    assert cursor == rows[k + n - 1].sequence;
    var k2 := AfterIsSuffix(rows, cursor);
    assert forall i :: 0 <= i < |rows| ==> (rows[i].sequence <= cursor <==> i < k + n);
    assert k2 < |rows| ==> rows[k2].sequence > cursor;
    assert k2 > 0 ==> rows[k2 - 1].sequence <= cursor;
    assert k2 == k + n;
    assert After(rows, after)[n..] == rows[k + n..];
  }

  /** The page under construction: the first n rows after the cursor. */
  function PageOf(rows: seq<Event>, after: nat, n: nat): Page
    requires n <= |After(rows, after)|
  {
    var items := After(rows, after)[..n];
    Page(items, if n == 0 then after else items[n - 1].sequence,
         Latest(rows), Earliest(rows), false, false, Watermark)
  }

  /** A page leaves out the next row only for the row limit or the byte budget. */
  ghost predicate FilledUp(
    rows: seq<Event>, after: nat, limit: nat, responseBytes: nat, measure: Page -> nat, page: Page)
  {
    var n := |page.items|;
    !page.resetRequired && n < |After(rows, after)| && n != limit ==>
      measure(PageOf(rows, after, n + 1).(hasMore := true)) > responseBytes
  }

  /** How many rows a page takes, counted from the n-th: up to the limit and
    * while the next one, tested with `hasMore` set, fits the budget. */
  function Taken(rows: seq<Event>, after: nat, limit: nat, responseBytes: nat, measure: Page -> nat, n: nat): (m: nat)
    requires n <= |After(rows, after)|
    ensures n <= m <= |After(rows, after)|
    decreases |After(rows, after)| - n
  {
    if n == |After(rows, after)| || n == limit then n
    else if measure(PageOf(rows, after, n + 1).(hasMore := true)) > responseBytes then n
    else Taken(rows, after, limit, responseBytes, measure, n + 1)
  }

  function FinalPage(rows: seq<Event>, after: nat, limit: nat, responseBytes: nat, measure: Page -> nat): (p: Page)
    ensures !p.resetRequired
  {
    var n, all := Taken(rows, after, limit, responseBytes, measure, 0), |After(rows, after)|;
    PageOf(rows, after, n).(
      hasMore := n < all,
      stopReason := if n == all then Watermark else if n == limit then ItemLimit else ByteBudget)
  }

  function ResetPage(rows: seq<Event>, after: nat): (p: Page)
    ensures p.resetRequired && p.items == []
  {
    PageOf(rows, after, 0).(resetRequired := true, stopReason := CursorExpired)
  }

  /** The first row does not fit a page of its own. */
  predicate ItemTooLarge(rows: seq<Event>, after: nat, responseBytes: nat, measure: Page -> nat) {
    && !CursorLost(rows, after) && After(rows, after) != []
    && measure(PageOf(rows, after, 1).(hasMore := true)) > responseBytes
  }

  /** The encoded size of a page: `false` takes one byte more than `true`. */
  function WireSize(size: (seq<Event>, nat) -> nat, page: Page): nat {
    size(page.items, page.nextSequence) + if page.hasMore then 4 else 5
  }

  function WireMeasure(size: (seq<Event>, nat) -> nat): Page -> nat {
    (page: Page) => WireSize(size, page)
  }

  lemma {:induction false} TakenFits(rows: seq<Event>, after: nat, limit: nat, responseBytes: nat, measure: Page -> nat,
      n: nat)
    requires n <= |After(rows, after)|
    requires n > 0 ==> measure(PageOf(rows, after, n).(hasMore := true)) <= responseBytes
    ensures var m := Taken(rows, after, limit, responseBytes, measure, n);
      m > 0 ==> measure(PageOf(rows, after, m).(hasMore := true)) <= responseBytes
    decreases |After(rows, after)| - n
  {
    if n < |After(rows, after)| && n != limit
       && measure(PageOf(rows, after, n + 1).(hasMore := true)) <= responseBytes {
      TakenFits(rows, after, limit, responseBytes, measure, n + 1);
    }
  }

  /** The rows of a page are tested with `hasMore` set, one byte too short for
    * the page that ends the walk: once its first row fits, a page is refused as
    * a whole exactly when it takes every row left and its tested size is the
    * budget to the byte. */
  lemma LastPageIsRefusedIff(
    rows: seq<Event>, after: nat, limit: nat, responseBytes: nat, size: (seq<Event>, nat) -> nat)
    requires !CursorLost(rows, after) && After(rows, after) != [] && limit > 0
    requires !ItemTooLarge(rows, after, responseBytes, WireMeasure(size))
    ensures var n := |After(rows, after)|;
      WireMeasure(size)(FinalPage(rows, after, limit, responseBytes, WireMeasure(size))) > responseBytes <==>
        && Taken(rows, after, limit, responseBytes, WireMeasure(size), 0) == n
        && WireMeasure(size)(PageOf(rows, after, n).(hasMore := true)) == responseBytes
  {
    TakenFits(rows, after, limit, responseBytes, WireMeasure(size), 0);
    hide After, CursorLost;
    var n := Taken(rows, after, limit, responseBytes, WireMeasure(size), 0);
    assert n > 0;
  }

  /** One event, a budget it fits to the byte with more to come: the only page
    * there is gets refused, however often it is asked for. */
  lemma FittingPageCanBeRefused() returns (rows: seq<Event>, size: (seq<Event>, nat) -> nat, responseBytes: nat)
    ensures Ordered(rows) && |rows| == 1 && 1 <= responseBytes <= MAXIMUM_RPC_PAYLOAD && !CursorLost(rows, 0)
    ensures !ItemTooLarge(rows, 0, responseBytes, WireMeasure(size))
    ensures WireMeasure(size)(FinalPage(rows, 0, MAXIMUM_EVENT_PAGE, responseBytes, WireMeasure(size))) > responseBytes
  {
    rows := [Event(1, "", "", Collaboration, 2, 1)];
    size, responseBytes := (items: seq<Event>, next: nat) => 396 * |items| + 112, 512;
    assert After(rows, 0) == rows;
    LastPageIsRefusedIff(rows, 0, MAXIMUM_EVENT_PAGE, responseBytes, size);
  }

  lemma PrefixIsPage(rows: seq<Event>, after: nat, n: nat)
    requires Ordered(rows) && !CursorLost(rows, after) && n <= |After(rows, after)|
    requires n == 0 ==> After(rows, after) == []
    ensures IsPage(rows, after, PageOf(rows, after, n).(hasMore := n < |After(rows, after)|))
    ensures PageOf(rows, after, n).nextSequence < Latest(rows) <==> n < |After(rows, after)|
  {
    var k := AfterIsSuffix(rows, after);
    var tail := After(rows, after);
    if n > 0 {
      assert tail[n - 1] == rows[k + n - 1];
    } else if rows != [] {
      assert k == |rows|;
    }
  }

  lemma ReachesWatermark(rows: seq<Event>, after: nat, n: nat)
    requires Ordered(rows) && !CursorLost(rows, after) && n <= |After(rows, after)|
    requires n == 0 ==> After(rows, after) == []
    ensures PageOf(rows, after, n).nextSequence < Latest(rows) <==> n < |After(rows, after)|
  {
    PrefixIsPage(rows, after, n);
  }

  lemma {:induction false} TakenStops(rows: seq<Event>, after: nat, limit: nat, responseBytes: nat,
      measure: Page -> nat, n: nat)
    requires n <= |After(rows, after)| && n <= limit
    ensures var m := Taken(rows, after, limit, responseBytes, measure, n);
      && m <= limit
      && (m < |After(rows, after)| && m != limit ==>
            measure(PageOf(rows, after, m + 1).(hasMore := true)) > responseBytes)
    decreases |After(rows, after)| - n
  {
    if n < |After(rows, after)| && n != limit
       && measure(PageOf(rows, after, n + 1).(hasMore := true)) <= responseBytes {
      TakenStops(rows, after, limit, responseBytes, measure, n + 1);
    }
  }

  /** The final form is a page, cut only where the next row would not fit. */
  lemma FinalIsPage(rows: seq<Event>, after: nat, limit: nat, responseBytes: nat, measure: Page -> nat)
    requires Ordered(rows) && !CursorLost(rows, after) && limit > 0
    requires !ItemTooLarge(rows, after, responseBytes, measure)
    ensures var page := FinalPage(rows, after, limit, responseBytes, measure);
      && IsPage(rows, after, page) && |page.items| <= limit
      && FilledUp(rows, after, limit, responseBytes, measure, page)
  {
    var n := Taken(rows, after, limit, responseBytes, measure, 0);
    TakenStops(rows, after, limit, responseBytes, measure, 0);
    assert n == 0 ==> After(rows, after) == [];
    PrefixIsPage(rows, after, n);
    hide After, Latest, Earliest, CursorLost, Ordered, Taken;
  }

  // ----- the journal object -----

  class Journal {
    var rows: seq<Event>

    constructor ()
      ensures rows == []
    {
      rows := [];
    }

    /** Prunes by age with one statement, then row by row from the oldest. */
    method Prune(now: int)
      modifies this
      ensures rows == Retained(old(rows), now)
    {
      rows := Unexpired(rows, now - MAXIMUM_REPLAY_AGE);
      ghost var unexpired := rows;
      var total := TotalBytes(rows);
      while total > MAXIMUM_PERSISTENT_EVENT_BYTES
        invariant total == TotalBytes(rows)
        invariant Trimmed(rows) == Trimmed(unexpired)
        decreases |rows|
      {
        rows := rows[1..];
        total := TotalBytes(rows);
      }
    }

    method Append(event: Event) returns (r: Result<Event, JournalError>)
      modifies this
      ensures r == (if event.payloadLength > MAXIMUM_EVENT_PAYLOAD then Err(Invalid)
                    else if Latest(old(rows)) >= MAX_SAFE_INTEGER then Err(SequenceExhausted)
                    else Ok(event.(sequence := Latest(old(rows)) + 1)))
      ensures rows == (if r.Ok? then Appended(old(rows), event) else old(rows))
      ensures r.Ok? ==> rows != [] && rows[|rows| - 1] == r.value
    {
      if event.payloadLength > MAXIMUM_EVENT_PAYLOAD {
        return Err(Invalid);
      }
      var stored := event.(sequence := Latest(rows) + 1);
      if stored.sequence > MAX_SAFE_INTEGER {
        return Err(SequenceExhausted);
      }
      NewestEventSurvives(rows, event);
      rows := rows + [stored];
      Prune(event.occurredAt);
      r := Ok(stored);
    }

    /** One page of at most `limit` rows whose measured response fits the byte
      * budget; `measure` is the encoded length of a page. */
    method ListPage(after: nat, limit: nat, responseBytes: nat, measure: Page -> nat)
        returns (r: Result<Page, JournalError>)
      requires Ordered(rows)
      ensures r.Ok? ==> IsPage(rows, after, r.value)
      ensures r.Ok? ==> measure(r.value) <= responseBytes && |r.value.items| <= limit
      ensures r.Ok? ==> FilledUp(rows, after, limit, responseBytes, measure, r.value)
      ensures (limit < 1 || limit > MAXIMUM_EVENT_PAGE || responseBytes < 1 || responseBytes > MAXIMUM_RPC_PAYLOAD)
        <==> r == Err(Invalid)
      ensures r.Ok? ==>
        r.value == if CursorLost(rows, after) then ResetPage(rows, after)
                   else FinalPage(rows, after, limit, responseBytes, measure)
      ensures r != Err(SequenceExhausted)
      ensures r == Err(EventItemTooLarge) <==>
        r != Err(Invalid) && ItemTooLarge(rows, after, responseBytes, measure)
      ensures r == Err(ResponsePageTooLarge) <==>
        && r != Err(Invalid) && !ItemTooLarge(rows, after, responseBytes, measure)
        && responseBytes < measure(if CursorLost(rows, after) then ResetPage(rows, after)
                                   else FinalPage(rows, after, limit, responseBytes, measure))
    {
      if limit < 1 || limit > MAXIMUM_EVENT_PAGE || responseBytes < 1 || responseBytes > MAXIMUM_RPC_PAYLOAD {
        return Err(Invalid);
      }
      var page := PageOf(rows, after, 0);
      if CursorLost(rows, after) {
        page := page.(resetRequired := true, stopReason := CursorExpired);
        if measure(page) > responseBytes {
          return Err(ResponsePageTooLarge);
        }
        return Ok(page);
      }
      var tail := After(rows, after);
      var index := 0;
      hide IsPage, FilledUp, Ordered, CursorLost, After, Latest, Earliest;
      while index < |tail|
        invariant 0 <= index <= |tail| && index <= limit
        invariant page == PageOf(rows, after, index)
        invariant Taken(rows, after, limit, responseBytes, measure, 0)
               == Taken(rows, after, limit, responseBytes, measure, index)
        invariant index > 0 ==> !ItemTooLarge(rows, after, responseBytes, measure)
      {
        if |page.items| == limit {
          page := page.(hasMore := true, stopReason := ItemLimit);
          break;
        }
        var candidate := page.(
          items := page.items + [tail[index]], nextSequence := tail[index].sequence, hasMore := true);
        assert tail[..index] + [tail[index]] == tail[..index + 1];
        if measure(candidate) > responseBytes {
          if |page.items| == 0 {
            return Err(EventItemTooLarge);
          }
          page := page.(hasMore := true, stopReason := ByteBudget);
          break;
        }
        page := candidate.(hasMore := false);
        index := index + 1;
      }
      ReachesWatermark(rows, after, index);
      if !page.hasMore && page.nextSequence < Latest(rows) {
        page := page.(hasMore := true, stopReason := Watermark);
      }
      assert page == FinalPage(rows, after, limit, responseBytes, measure);
      if measure(page) > responseBytes {
        return Err(ResponsePageTooLarge);
      }
      FinalIsPage(rows, after, limit, responseBytes, measure);
      r := Ok(page);
    }
  }
}
