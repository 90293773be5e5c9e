/** event.subscribe: the project-wide agent event journal, its hub and pump, and
  * subscribers that suppress up to one watermark and replay up to a later one.
  */
module AgentEventStream {
  import opened Wrappers

  /** A journal entry; its payload is the encoded safe payload. */
  datatype Record = Record(sequence: nat, payload: string, occurredAt: int)

  datatype ResetReason = ReplayBootstrap | ReplayRetention | ReplayGap | SlowConsumer | HubShutdown

  datatype StreamInfo = StreamInfo(high: nat, minimum: nat)

  const MAXIMUM_RETENTION: nat := 4096
  const RETENTION_AGE: int := 86400000
  const MAXIMUM_PAYLOAD: nat := 4096
  const MAXIMUM_QUEUE_COUNT: nat := 256
  const MAXIMUM_QUEUE_BYTES: nat := 524288
  const MAX_SAFE_INTEGER: nat := 9007199254740991

  // ----- the journal -----

  predicate Kept(r: Record, high: nat, now: int) {
    r.sequence + MAXIMUM_RETENTION > high && r.occurredAt >= now - RETENTION_AGE
  }

  function Retained(rows: seq<Record>, high: nat, now: int): seq<Record> {
    if rows == [] then []
    else (if Kept(rows[0], high, now) then [rows[0]] else []) + Retained(rows[1..], high, now)
  }

  function Between(rows: seq<Record>, after: nat, through: nat): seq<Record> {
    if rows == [] then []
    else (if after < rows[0].sequence <= through then [rows[0]] else []) + Between(rows[1..], after, through)
  }

  function InfoOf(rows: seq<Record>, high: nat): StreamInfo {
    StreamInfo(high, if rows == [] then high + 1 else rows[0].sequence)
  }

  ghost predicate Increasing(rows: seq<Record>) {
    forall i, j :: 0 <= i < j < |rows| ==> rows[i].sequence < rows[j].sequence
  }

  /** The rows are part of the history and end with its newest record. */
  ghost predicate JournalInv(rows: seq<Record>, log: seq<Record>) {
    && (forall i :: 0 <= i < |log| ==> log[i].sequence == i + 1)
    && Increasing(rows)
    && (forall r :: r in rows ==> 1 <= r.sequence <= |log| && r == log[r.sequence - 1])
    && (log != [] ==> rows != [] && rows[|rows| - 1] == log[|log| - 1])
    && (log == [] ==> rows == [])
  }

  lemma {:induction false} RetainedMembers(rows: seq<Record>, high: nat, now: int, r: Record)
    ensures r in Retained(rows, high, now) <==> r in rows && Kept(r, high, now)
  {
    if rows != [] {
      RetainedMembers(rows[1..], high, now, r);
      assert rows == [rows[0]] + rows[1..];
    }
  }

  lemma {:induction false} BetweenMembers(rows: seq<Record>, after: nat, through: nat, r: Record)
    ensures r in Between(rows, after, through) <==> r in rows && after < r.sequence <= through
  {
    if rows != [] {
      BetweenMembers(rows[1..], after, through, r);
      assert rows == [rows[0]] + rows[1..];
    }
  }

  lemma {:induction false} RetainedIncreasing(rows: seq<Record>, high: nat, now: int)
    requires Increasing(rows)
    ensures Increasing(Retained(rows, high, now))
  {
    if rows != [] {
      var rest := Retained(rows[1..], high, now);
      RetainedIncreasing(rows[1..], high, now);
      forall i | 0 <= i < |rest| ensures rest[i] in rows[1..] {
        RetainedMembers(rows[1..], high, now, rest[i]);
      }
    }
  }

  lemma {:induction false} BetweenIncreasing(rows: seq<Record>, after: nat, through: nat)
    requires Increasing(rows)
    ensures Increasing(Between(rows, after, through))
  {
    if rows != [] {
      var rest := Between(rows[1..], after, through);
      BetweenIncreasing(rows[1..], after, through);
      forall i | 0 <= i < |rest| ensures rest[i] in rows[1..] {
        BetweenMembers(rows[1..], after, through, rest[i]);
      }
    }
  }

  lemma LastOfIncreasing(rows: seq<Record>, r: Record)
    requires Increasing(rows) && r in rows && forall x :: x in rows ==> x.sequence <= r.sequence
    ensures rows[|rows| - 1] == r
  {
    var i :| 0 <= i < |rows| && rows[i] == r;
    assert rows[|rows| - 1] in rows;
  }

  function AppendedRows(rows: seq<Record>, high: nat, payload: string, now: int): seq<Record> {
    Retained(rows + [Record(high + 1, payload, now)], high + 1, now)
  }

  /** Appending never loses the newest record and keeps the journal a part of
    * the history, whatever the clock does. */
  lemma AppendKeepsJournal(rows: seq<Record>, log: seq<Record>, payload: string, now: int)
    requires JournalInv(rows, log)
    ensures JournalInv(AppendedRows(rows, |log|, payload, now), log + [Record(|log| + 1, payload, now)])
  {
    var stored := Record(|log| + 1, payload, now);
    var grown, log' := rows + [stored], log + [stored];
    GrownJournal(rows, log, stored);
    var rows' := Retained(grown, |log| + 1, now);
    RetainedIncreasing(grown, |log| + 1, now);
    forall r ensures r in rows' <==> r in grown && Kept(r, |log| + 1, now) {
      RetainedMembers(grown, |log| + 1, now, r);
    }
    hide Retained;
    assert stored in grown;
    PartKeepsJournal(rows', grown, log', stored);
  }

  lemma PartKeepsJournal(part: seq<Record>, rows: seq<Record>, log: seq<Record>, newest: Record)
    requires JournalInv(rows, log) && log != [] && newest == log[|log| - 1]
    requires Increasing(part) && newest in part && (forall r :: r in part ==> r in rows)
    ensures JournalInv(part, log)
  {
    hide Increasing;
    LastOfIncreasing(part, newest);
  }

  lemma GrownJournal(rows: seq<Record>, log: seq<Record>, stored: Record)
    requires JournalInv(rows, log) && stored.sequence == |log| + 1
    ensures JournalInv(rows + [stored], log + [stored])
    ensures forall r :: r in rows + [stored] ==> r.sequence <= stored.sequence
  {
    var log' := log + [stored];
    assert forall i :: 0 <= i < |log| ==> log'[i] == log[i];
    forall i | 0 <= i < |rows| ensures rows[i].sequence < stored.sequence {
      assert rows[i] in rows;
    }
  }

  // ----- retention over runs of appends -----

  ghost predicate Contiguous(rows: seq<Record>) {
    forall i :: 0 <= i < |rows| ==> rows[i].sequence == rows[0].sequence + i
  }

  ghost predicate TimesNeverDecrease(rows: seq<Record>) {
    forall i, j :: 0 <= i < j < |rows| ==> rows[i].occurredAt <= rows[j].occurredAt
  }

  /** No row that retention drops follows a row that stays. */
  ghost predicate DropsInOrder(rows: seq<Record>, high: nat, now: int) {
    forall i, j :: 0 <= i < j < |rows| && !Kept(rows[j], high, now) ==> !Kept(rows[i], high, now)
  }

  lemma {:induction false} RetainedLengthAndLast(rows: seq<Record>, high: nat, now: int)
    requires rows != [] && Kept(rows[|rows| - 1], high, now)
    ensures var kept := Retained(rows, high, now);
      && 0 < |kept| <= |rows| && kept[|kept| - 1] == rows[|rows| - 1]
      && (|kept| == |rows| <==> forall j :: 0 <= j < |rows| ==> Kept(rows[j], high, now))
      && (|kept| == |rows| ==> kept == rows)
  {
    var tail, rest := rows[1..], Retained(rows[1..], high, now);
    assert Retained(rows, high, now) == (if Kept(rows[0], high, now) then [rows[0]] else []) + rest;
    assert rows == [rows[0]] + tail;
    if tail == [] {
      assert rest == [];
    } else {
      RetainedLengthAndLast(tail, high, now);
      hide Retained, Kept;
      assert forall j :: 0 < j < |rows| ==> rows[j] == tail[j - 1];
    }
  }

  /** Retention leaves one interval exactly when rows are dropped in order. */
  lemma {:induction false} RetentionKeepsIntervalIff(rows: seq<Record>, high: nat, now: int)
    requires rows != [] && Contiguous(rows) && Kept(rows[|rows| - 1], high, now)
    ensures Contiguous(Retained(rows, high, now)) <==> DropsInOrder(rows, high, now)
  {
    if Kept(rows[0], high, now) {
      var kept := Retained(rows, high, now);
      RetainedLengthAndLast(rows, high, now);
      assert kept[0] == rows[0];
      if |kept| < |rows| {
        var j :| 0 <= j < |rows| && !Kept(rows[j], high, now);
        assert 0 < j && !DropsInOrder(rows, high, now);
        assert kept[|kept| - 1].sequence == rows[0].sequence + |rows| - 1;
      }
    } else {
      var tail := rows[1..];
      assert forall i :: 0 <= i < |tail| ==> tail[i] == rows[i + 1];
      RetentionKeepsIntervalIff(tail, high, now);
      assert Retained(rows, high, now) == Retained(tail, high, now);
      DropsAfterDroppedHead(rows, high, now);
    }
  }

  lemma DropsAfterDroppedHead(rows: seq<Record>, high: nat, now: int)
    requires rows != [] && !Kept(rows[0], high, now)
    ensures DropsInOrder(rows, high, now) <==> DropsInOrder(rows[1..], high, now)
  {
    var tail := rows[1..];
    assert forall i :: 0 <= i < |tail| ==> tail[i] == rows[i + 1];
    if DropsInOrder(tail, high, now) {
      forall i, j | 0 <= i < j < |rows| && !Kept(rows[j], high, now) ensures !Kept(rows[i], high, now) {
        if i > 0 {
          assert tail[j - 1] == rows[j] && tail[i - 1] == rows[i];
        }
      }
    }
  }

  lemma {:induction false} RetainedKeepsTimes(rows: seq<Record>, high: nat, now: int)
    requires TimesNeverDecrease(rows)
    ensures TimesNeverDecrease(Retained(rows, high, now))
  {
    if rows != [] {
      var rest := Retained(rows[1..], high, now);
      RetainedKeepsTimes(rows[1..], high, now);
      forall i | 0 <= i < |rest| ensures rest[i] in rows[1..] {
        RetainedMembers(rows[1..], high, now, rest[i]);
      }
    }
  }

  /** With times that do not decrease the rows stay one interval ending at the
    * high watermark. */
  lemma AppendKeepsInterval(rows: seq<Record>, high: nat, payload: string, now: int)
    requires Contiguous(rows) && TimesNeverDecrease(rows)
    requires rows != [] ==> rows[|rows| - 1].sequence == high && rows[|rows| - 1].occurredAt <= now
    ensures var rows' := AppendedRows(rows, high, payload, now);
      && Contiguous(rows') && TimesNeverDecrease(rows')
      && rows' != [] && rows'[|rows'| - 1] == Record(high + 1, payload, now)
  {
    var grown := rows + [Record(high + 1, payload, now)];
    assert DropsInOrder(grown, high + 1, now);
    RetentionKeepsIntervalIff(grown, high + 1, now);
    RetainedKeepsTimes(grown, high + 1, now);
    RetainedLengthAndLast(grown, high + 1, now);
  }

  datatype Write = Write(payload: string, now: int)

  /** The history and the retained rows after a run of appends. */
  function LogOf(writes: seq<Write>): (log: seq<Record>)
    ensures |log| == |writes|
    ensures forall i :: 0 <= i < |writes| ==> log[i] == Record(i + 1, writes[i].payload, writes[i].now)
  {
    if writes == [] then []
    else
      var n := |writes| - 1;
      LogOf(writes[..n]) + [Record(n + 1, writes[n].payload, writes[n].now)]
  }

  function RowsOf(writes: seq<Write>): seq<Record> {
    if writes == [] then []
    else
      var n := |writes| - 1;
      AppendedRows(RowsOf(writes[..n]), n, writes[n].payload, writes[n].now)
  }

  ghost predicate ClockNeverStepsBack(writes: seq<Write>) {
    forall i, j :: 0 <= i < j < |writes| ==> writes[i].now <= writes[j].now
  }

  /** Whatever the clock does, a run keeps its newest record and only records
    * of its history. */
  lemma {:induction false} RunKeepsJournal(writes: seq<Write>)
    ensures JournalInv(RowsOf(writes), LogOf(writes))
  {
    hide *;
    if writes == [] {
      NothingWritten();
    } else {
      var n := |writes| - 1;
      RunKeepsJournal(writes[..n]);
      LastWrite(writes);
      AppendKeepsJournal(RowsOf(writes[..n]), LogOf(writes[..n]), writes[n].payload, writes[n].now);
    }
  }

  lemma NothingWritten()
    ensures JournalInv(RowsOf([]), LogOf([]))
  {
  }

  lemma LastWrite(writes: seq<Write>)
    requires writes != []
    ensures var n := |writes| - 1;
      && RowsOf(writes) == AppendedRows(RowsOf(writes[..n]), n, writes[n].payload, writes[n].now)
      && LogOf(writes) == LogOf(writes[..n]) + [Record(n + 1, writes[n].payload, writes[n].now)]
      && |LogOf(writes[..n])| == n
  {
    hide AppendedRows;
  }

  lemma {:induction false} RunKeepsInterval(writes: seq<Write>)
    requires ClockNeverStepsBack(writes)
    ensures Contiguous(RowsOf(writes)) && TimesNeverDecrease(RowsOf(writes))
    ensures writes == [] ==> RowsOf(writes) == []
    ensures writes != [] ==> EndsWith(RowsOf(writes), |writes|, writes[|writes| - 1].now)
  {
    if writes != [] {
      var n := |writes| - 1;
      RunKeepsInterval(writes[..n]);
      LastWrite(writes);
      hide RowsOf, AppendedRows, Contiguous, TimesNeverDecrease;
      AppendKeepsInterval(RowsOf(writes[..n]), n, writes[n].payload, writes[n].now);
    }
  }

  predicate EndsWith(rows: seq<Record>, high: nat, now: int) {
    rows != [] && rows[|rows| - 1].sequence == high && rows[|rows| - 1].occurredAt == now
  }

  /** A cursor that passes the reset test and its replay of everything newer. */
  ghost predicate Replays(rows: seq<Record>, log: seq<Record>, after: nat) {
    after <= |log| && after + 1 >= InfoOf(rows, |log|).minimum ==> Between(rows, after, |log|) == log[after..]
  }

  /** Every cursor that passes the reset test finds all later records exactly
    * when the rows are one interval. */
  lemma EveryCursorReplaysIff(rows: seq<Record>, log: seq<Record>)
    requires JournalInv(rows, log)
    ensures (forall after: nat :: Replays(rows, log, after)) <==> Contiguous(rows)
  {
    if Contiguous(rows) {
      forall after: nat ensures Replays(rows, log, after) {
        WholeCursorReplays(rows, log, after);
      }
    }
    if rows != [] && forall after: nat :: Replays(rows, log, after) {
      assert rows[0] in rows;
      assert Replays(rows, log, rows[0].sequence - 1);
      hide JournalInv;
      EarliestReplayIsWhole(rows, log);
    }
  }

  lemma EarliestReplayIsWhole(rows: seq<Record>, log: seq<Record>)
    requires JournalInv(rows, log) && rows != [] && rows[0].sequence > 0
    requires Replays(rows, log, rows[0].sequence - 1)
    ensures Contiguous(rows)
  {
    hide *;
    RowsWithin(rows, log);
    ReplayedFromFirst(rows, log);
    BetweenAll(rows, rows[0].sequence - 1, |log|);
    SuffixIsContiguous(rows, log, rows[0].sequence - 1);
  }

  lemma ReplayedFromFirst(rows: seq<Record>, log: seq<Record>)
    requires rows != [] && 0 < rows[0].sequence <= |log| && Replays(rows, log, rows[0].sequence - 1)
    ensures Between(rows, rows[0].sequence - 1, |log|) == log[rows[0].sequence - 1..]
  {
    hide Between;
  }

  lemma RowsWithin(rows: seq<Record>, log: seq<Record>)
    requires JournalInv(rows, log) && rows != []
    ensures forall r :: r in rows ==> rows[0].sequence - 1 < r.sequence <= |log|
    ensures rows[0].sequence <= |log| && forall i :: 0 <= i < |log| ==> log[i].sequence == i + 1
  {
    assert rows[0] in rows;
  }

  lemma SuffixIsContiguous(rows: seq<Record>, log: seq<Record>, k: nat)
    requires k <= |log| && rows == log[k..] && forall i :: 0 <= i < |log| ==> log[i].sequence == i + 1
    ensures Contiguous(rows)
  {
    assert forall i :: 0 <= i < |rows| ==> rows[i] == log[k + i];
  }

  /** Over every run of appends whose clock does not step back, a cursor that
    * passes the reset test can replay everything up to the watermark. */
  lemma RetainedCursorReplays(writes: seq<Write>, after: nat)
    requires ClockNeverStepsBack(writes)
    requires after <= |writes| && after + 1 >= InfoOf(RowsOf(writes), |writes|).minimum
    ensures Between(RowsOf(writes), after, |writes|) == LogOf(writes)[after..]
  {
    RunKeepsJournal(writes);
    RunKeepsInterval(writes);
    WholeCursorReplays(RowsOf(writes), LogOf(writes), after);
  }

  /** With a step back record 2 expires while the older record 1 stays: a reader
    * after 0 passes the reset test and finds 1 and then 3. */
  lemma ClockStepBackLeavesHole() returns (writes: seq<Write>)
    ensures |writes| == 3 && forall w :: w in writes ==> w.now > 0 && 0 < |w.payload| <= MAXIMUM_PAYLOAD
    ensures 1 >= InfoOf(RowsOf(writes), 3).minimum
    ensures Between(RowsOf(writes), 0, 3) == [LogOf(writes)[0], LogOf(writes)[2]]
  {
    writes := [Write("x", 2), Write("x", 1), Write("x", RETENTION_AGE + 2)];
    var r1, r2, r3 := Record(1, "x", 2), Record(2, "x", 1), Record(3, "x", RETENTION_AGE + 2);
    StepBackRows(r1, r2, r3);
    RowsOfThree(writes);
    hide AppendedRows, RowsOf, Between;
    BetweenAll([r1, r3], 0, 3);
    assert LogOf(writes)[0] == r1 && LogOf(writes)[2] == r3;
  }

  lemma RowsOfThree(writes: seq<Write>)
    requires |writes| == 3
    ensures RowsOf(writes) ==
      var first := AppendedRows([], 0, writes[0].payload, writes[0].now);
      var second := AppendedRows(first, 1, writes[1].payload, writes[1].now);
      AppendedRows(second, 2, writes[2].payload, writes[2].now)
  {
    hide AppendedRows;
    assert RowsOf(writes[..2][..1]) == AppendedRows(RowsOf([]), 0, writes[0].payload, writes[0].now) by {
      assert writes[..2][..1][..0] == [];
    }
    assert RowsOf(writes[..2]) == AppendedRows(RowsOf(writes[..2][..1]), 1, writes[1].payload, writes[1].now);
  }

  lemma StepBackRows(r1: Record, r2: Record, r3: Record)
    requires r1 == Record(1, "x", 2) && r2 == Record(2, "x", 1) && r3 == Record(3, "x", RETENTION_AGE + 2)
    ensures AppendedRows([], 0, "x", 2) == [r1]
    ensures AppendedRows([r1], 1, "x", 1) == [r1, r2]
    ensures AppendedRows([r1, r2], 2, "x", RETENTION_AGE + 2) == [r1, r3]
  {
    assert [] + [r1] == [r1] && [r1] + [r2] == [r1, r2] && [r1, r2] + [r3] == [r1, r2, r3];
    RetainedThree([r1], 1, 2);
    RetainedThree([r1, r2], 2, 1);
    RetainedThree([r1, r2, r3], 3, RETENTION_AGE + 2);
    hide Retained;
  }

  lemma RetainedThree(rows: seq<Record>, high: nat, now: int)
    requires 1 <= |rows| <= 3
    ensures var first := if Kept(rows[0], high, now) then [rows[0]] else [];
      var second := if |rows| > 1 && Kept(rows[1], high, now) then [rows[1]] else [];
      var third := if |rows| > 2 && Kept(rows[2], high, now) then [rows[2]] else [];
      Retained(rows, high, now) == first + (second + third)
  {
    if |rows| > 1 {
      assert Retained(rows[1..], high, now)
        == (if Kept(rows[1], high, now) then [rows[1]] else []) + Retained(rows[1..][1..], high, now);
      if |rows| > 2 {
        assert rows[1..][1..] == [rows[2]];
      }
    }
  }

  lemma WholeCursorReplays(rows: seq<Record>, log: seq<Record>, after: nat)
    requires JournalInv(rows, log) && Contiguous(rows)
    ensures Replays(rows, log, after)
  {
    if log != [] && after <= |log| && after + 1 >= InfoOf(rows, |log|).minimum {
      WholeRowsAreSuffix(rows, log);
      BetweenOfSlice(log, rows[0].sequence - 1, after);
    }
  }

  lemma WholeRowsAreSuffix(rows: seq<Record>, log: seq<Record>)
    requires JournalInv(rows, log) && log != [] && Contiguous(rows)
    ensures 1 <= rows[0].sequence <= |log| && rows == log[rows[0].sequence - 1..]
  {
    var first := rows[0].sequence;
    assert rows[0] in rows;
    assert rows[|rows| - 1].sequence == first + |rows| - 1;
    forall i | 0 <= i < |rows| ensures rows[i] == log[first - 1 + i] {
      assert rows[i] in rows;
    }
  }

  lemma {:induction false} BetweenOfSlice(log: seq<Record>, from: nat, after: nat)
    requires forall i :: 0 <= i < |log| ==> log[i].sequence == i + 1
    requires from <= after <= |log|
    ensures Between(log[from..], after, |log|) == log[after..]
    decreases |log| - from
  {
    if from < |log| {
      assert log[from..][1..] == log[from + 1..];
      if from < after {
        BetweenOfSlice(log, from + 1, after);
      } else {
        BetweenAll(log[from..], after, |log|);
      }
    }
  }

  lemma {:induction false} BetweenAll(rows: seq<Record>, after: nat, through: nat)
    requires forall r :: r in rows ==> after < r.sequence <= through
    ensures Between(rows, after, through) == rows
  {
    if rows != [] {
      BetweenAll(rows[1..], after, through);
      assert rows == [rows[0]] + rows[1..];
    }
  }

  class AgentJournal {
    var rows: seq<Record>
    var highWatermark: nat
    ghost var log: seq<Record>

    ghost predicate Valid()
      reads this
    {
      JournalInv(rows, log) && highWatermark == |log|
    }

    constructor ()
      ensures Valid() && log == []
    {
      rows, highWatermark, log := [], 0, [];
    }

    method Append(payload: string, now: int) returns (r: Option<Record>)
      requires Valid()
      modifies this
      ensures Valid()
      ensures r.Some? <==> 0 < |payload| <= MAXIMUM_PAYLOAD && old(highWatermark) < MAX_SAFE_INTEGER
      ensures r.Some? ==> r.value == Record(old(|log|) + 1, payload, now) && log == old(log) + [r.value]
      ensures r.Some? ==> rows == AppendedRows(old(rows), old(|log|), payload, now)
      ensures r.None? ==> rows == old(rows) && log == old(log)
    {
      if |payload| == 0 || |payload| > MAXIMUM_PAYLOAD || highWatermark >= MAX_SAFE_INTEGER {
        return None;
      }
      AppendKeepsJournal(rows, log, payload, now);
      hide JournalInv, Retained;
      highWatermark := highWatermark + 1;
      var stored := Record(highWatermark, payload, now);
      rows := rows + [stored];
      rows := Retained(rows, highWatermark, now);
      log := log + [stored];
      r := Some(stored);
    }
  }

  /** The replay check of event.subscribe. */
  method ReplayIsContiguous(events: seq<Record>, after: nat, through: nat) returns (ok: bool)
    ensures ok == IsWholeRange(events, after, through)
  {
    if after == through {
      return |events| == 0;
    }
    if |events| == 0 {
      return false;
    }
    var expected := after + 1;
    for index := 0 to |events|
      invariant expected == after + 1 + index
      invariant forall i :: 0 <= i < index ==> events[i].sequence == after + 1 + i
    {
      if events[index].sequence != expected {
        return false;
      }
      expected := expected + 1;
    }
    ok := expected == through + 1;
  }

  predicate IsWholeRange(events: seq<Record>, after: nat, through: nat) {
    |events| == through - after && forall i :: 0 <= i < |events| ==> events[i].sequence == after + 1 + i
  }
}
