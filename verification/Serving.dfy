/** Who is served by event.subscribe: which cursors are turned away and why, what
  * a replay delivers, and when a stream is cut off.
  */
module AgentServing {
  import opened Wrappers
  import opened AgentEventStream
  import opened AgentSubscription

  lemma StepOf(tr: seq<World>, actions: seq<Action>, i: nat)
    requires Behavior(tr, actions) && i < |actions|
    ensures |tr| == |actions| + 1 && Next(tr[i], tr[i + 1], actions[i]) && WorldInv(tr[i])
  {
    BehaviorKeepsInv(tr, actions, i);
  }

  /** One local step, seen from its handler. */
  lemma LocalOf(tr: seq<World>, actions: seq<Action>, i: nat, id: nat, step: LocalStep)
    requires Behavior(tr, actions) && i < |actions| && actions[i] == Local(id, step)
    ensures |tr| == |actions| + 1 && id in tr[i].handlers && id in tr[i + 1].handlers
    ensures Enabled(tr[i].handlers[id], step)
    ensures tr[i + 1].handlers[id] == AfterLocal(tr[i].handlers[id], step, tr[i].rows, |tr[i].log|)
    ensures HandlerInv(tr[i].handlers[id], tr[i].log) && JournalInv(tr[i].rows, tr[i].log)
  {
    hide Behavior, AfterLocal, Enabled, HandlerInv, JournalInv, HubsInv, PumpInv;
    StepOf(tr, actions, i);
  }

  // ----- the journal of a run whose clock does not step back -----

  ghost predicate SteadyClock(actions: seq<Action>) {
    forall i, j :: 0 <= i < j < |actions| && actions[i].Append? && actions[j].Append? ==> actions[i].now <= actions[j].now
  }

  /** Later appends are no older than the newest row. */
  ghost predicate NotBefore(rows: seq<Record>, actions: seq<Action>, n: nat) {
    forall k :: n <= k < |actions| && actions[k].Append? && rows != [] ==> rows[|rows| - 1].occurredAt <= actions[k].now
  }

  lemma {:induction false} SteadyRowsAreWhole(tr: seq<World>, actions: seq<Action>, n: nat)
    requires Behavior(tr, actions) && n < |tr| && SteadyClock(actions)
    ensures Contiguous(tr[n].rows) && TimesNeverDecrease(tr[n].rows) && NotBefore(tr[n].rows, actions, n)
  {
    hide *;
    BehaviorStarts(tr, actions);
    if n == 0 {
      NothingYet(tr[0], actions);
    } else {
      SteadyRowsAreWhole(tr, actions, n - 1);
      StepOf(tr, actions, n - 1);
      StepKeepsSteady(tr[n - 1], tr[n], actions, n - 1);
    }
  }

  lemma BehaviorStarts(tr: seq<World>, actions: seq<Action>)
    requires Behavior(tr, actions)
    ensures |tr| == |actions| + 1 && tr[0].rows == [] && tr[0].handlers == map[]
  {
  }

  lemma NothingYet(w: World, actions: seq<Action>)
    requires w.rows == []
    ensures Contiguous(w.rows) && TimesNeverDecrease(w.rows) && NotBefore(w.rows, actions, 0)
  {
  }

  lemma StepKeepsSteady(w: World, w': World, actions: seq<Action>, n: nat)
    requires n < |actions| && Next(w, w', actions[n]) && JournalInv(w.rows, w.log) && SteadyClock(actions)
    requires Contiguous(w.rows) && TimesNeverDecrease(w.rows) && NotBefore(w.rows, actions, n)
    ensures Contiguous(w'.rows) && TimesNeverDecrease(w'.rows) && NotBefore(w'.rows, actions, n + 1)
  {
    var a := actions[n];
    if a.Append? {
      NewestIsHigh(w.rows, w.log);
      AppendKeepsInterval(w.rows, |w.log|, a.payload, a.now);
      hide AppendedRows, Contiguous, TimesNeverDecrease, JournalInv;
    } else {
      RowsStay(w, w', a);
      hide Next, Contiguous, TimesNeverDecrease, JournalInv;
    }
  }

  lemma NewestIsHigh(rows: seq<Record>, log: seq<Record>)
    requires JournalInv(rows, log)
    ensures rows != [] ==> rows[|rows| - 1].sequence == |log|
    ensures rows == [] ==> log == []
  {
  }

  lemma RowsStay(w: World, w': World, a: Action)
    requires Next(w, w', a) && !a.Append?
    ensures w'.rows == w.rows && w'.log == w.log
  {
    hide AfterLocal, Enabled;
  }

  // ----- the reset test -----

  /** The record under a sequence of the history is no longer stored. */
  predicate Lost(rows: seq<Record>, log: seq<Record>, s: nat)
    requires 1 <= s <= |log|
  {
    log[s - 1] !in rows
  }

  lemma MinimumMeans(rows: seq<Record>, log: seq<Record>, high: nat, after: nat)
    requires JournalInv(rows, log) && after <= high <= |log|
    ensures after + 1 < InfoOf(rows, high).minimum <==>
      log != [] && forall s :: 1 <= s <= after + 1 && s <= |log| ==> Lost(rows, log, s)
  {
    if log != [] {
      var first := rows[0].sequence;
      assert rows[0] in rows && rows[0] == log[first - 1];
      assert !Lost(rows, log, first);
      FirstIsOldest(rows);
      forall s | 1 <= s < first ensures Lost(rows, log, s) {
        assert log[s - 1].sequence == s;
      }
    }
  }

  lemma FirstIsOldest(rows: seq<Record>)
    requires Increasing(rows) && rows != []
    ensures forall r :: r in rows ==> rows[0].sequence <= r.sequence
  {
  }

  /** Over rows that are one interval, everything up to the record after the
    * cursor is gone exactly when something after the cursor is. */
  lemma LostFromTheFront(rows: seq<Record>, log: seq<Record>, after: nat)
    requires JournalInv(rows, log) && Contiguous(rows) && after <= |log|
    ensures (log != [] && forall s :: 1 <= s <= after + 1 && s <= |log| ==> Lost(rows, log, s)) <==>
      exists s :: after < s <= |log| && Lost(rows, log, s)
  {
    if log != [] {
      WholeRowsAreSuffix(rows, log);
      var first := rows[0].sequence;
      forall s | 1 <= s <= |log| ensures Lost(rows, log, s) <==> s < first {
        SuffixHolds(rows, log, first, s);
      }
      if first > after + 1 {
        assert Lost(rows, log, after + 1);
      }
      if after < |log| && first <= after + 1 {
        assert !Lost(rows, log, after + 1);
      }
      if after == |log| {
        assert !Lost(rows, log, |log|);
      }
    }
  }

  lemma SuffixHolds(rows: seq<Record>, log: seq<Record>, first: nat, s: nat)
    requires 1 <= first <= |log| && rows == log[first - 1..] && 1 <= s <= |log|
    requires forall i :: 0 <= i < |log| ==> log[i].sequence == i + 1
    ensures Lost(rows, log, s) <==> s < first
  {
    if s >= first {
      assert rows[s - first] == log[s - 1];
    } else {
      assert forall i :: 0 <= i < |rows| ==> rows[i] == log[first - 1 + i] && rows[i].sequence == first + i;
    }
  }

  /** The second watermark is the length of the history in an earlier state. */
  lemma {:induction false} SecondIsRead(tr: seq<World>, actions: seq<Action>, i: nat, id: nat) returns (j: nat)
    requires Behavior(tr, actions) && i < |tr| && id in tr[i].handlers && Reads(tr[i].handlers[id].phase)
    ensures j < i && j < |actions| && actions[j] == Local(id, ReadSecond) && tr[i].handlers[id].second == |tr[j].log|
  {
    hide *;
    BehaviorStarts(tr, actions);
    if i == 0 {
      assert false;
    }
    StepOf(tr, actions, i - 1);
    SecondStep(tr[i - 1], tr[i], actions[i - 1], id);
    if actions[i - 1] == Local(id, ReadSecond) {
      j := i - 1;
    } else {
      j := SecondIsRead(tr, actions, i - 1, id);
    }
  }

  lemma SecondStep(w: World, w': World, a: Action, id: nat)
    requires Next(w, w', a) && id in w'.handlers && Reads(w'.handlers[id].phase)
    ensures a == Local(id, ReadSecond) ==> w'.handlers[id].second == |w.log|
    ensures a != Local(id, ReadSecond) ==>
      id in w.handlers && Reads(w.handlers[id].phase) && w'.handlers[id].second == w.handlers[id].second
  {
    hide Between, IsWholeRange;
  }

  /** The reset test turns away exactly a subscriber without a cursor, one ahead of
    * the second watermark, and one whose next record is gone with everything
    * before it; any other goes on from its cursor. */
  lemma ResetTestIff(tr: seq<World>, actions: seq<Action>, i: nat, id: nat)
    requires Behavior(tr, actions) && i < |actions| && actions[i] == Local(id, ReadMinimum)
    ensures id in tr[i].handlers && id in tr[i + 1].handlers
    ensures var h, h', rows, log := tr[i].handlers[id], tr[i + 1].handlers[id], tr[i].rows, tr[i].log;
      && (h'.phase == Done(ResetBy(ReplayBootstrap)) <==> h.after.None?)
      && (h'.phase == Done(ResetBy(ReplayGap)) <==> h.after.Some? && h.after.value > h.second)
      && (h'.phase == Done(ResetBy(ReplayRetention)) <==>
            && h.after.Some? && h.after.value <= h.second && log != []
            && forall s :: 1 <= s <= h.after.value + 1 && s <= |log| ==> Lost(rows, log, s))
      && (!h'.phase.Done? ==>
            && h'.last == h.after.value && h'.emitted == [] && h'.second == h.second
            && h'.phase == if h.after.value == h.second then Streaming else Listing)
  {
    hide *;
    LocalOf(tr, actions, i, id, ReadMinimum);
    MinimumRead(tr[i].handlers[id], tr[i].rows, tr[i].log);
  }

  lemma MinimumRead(h: Handler, rows: seq<Record>, log: seq<Record>)
    requires HandlerInv(h, log) && JournalInv(rows, log) && Enabled(h, ReadMinimum)
    ensures h.second <= |log|
    ensures var h' := AfterLocal(h, ReadMinimum, rows, |log|);
      && (h'.phase == Done(ResetBy(ReplayBootstrap)) <==> h.after.None?)
      && (h'.phase == Done(ResetBy(ReplayGap)) <==> h.after.Some? && h.after.value > h.second)
      && (h'.phase == Done(ResetBy(ReplayRetention)) <==>
            && h.after.Some? && h.after.value <= h.second && log != []
            && forall s :: 1 <= s <= h.after.value + 1 && s <= |log| ==> Lost(rows, log, s))
      && (!h'.phase.Done? ==>
            && h'.last == h.after.value && h'.emitted == [] && h'.second == h.second
            && h'.phase == if h.after.value == h.second then Streaming else Listing)
  {
    if h.after.Some? && h.after.value <= h.second {
      MinimumMeans(rows, log, h.second, h.after.value);
    }
    hide JournalInv, InfoOf, Lost, QueueInv;
  }

  /** If the clock never stepped back, retention turns a subscriber away exactly
    * when a record after its cursor is gone. */
  lemma RetentionResetIff(tr: seq<World>, actions: seq<Action>, i: nat, id: nat)
    requires Behavior(tr, actions) && SteadyClock(actions) && i < |actions| && actions[i] == Local(id, ReadMinimum)
    ensures id in tr[i].handlers && id in tr[i + 1].handlers
    ensures var h, h', rows, log := tr[i].handlers[id], tr[i + 1].handlers[id], tr[i].rows, tr[i].log;
      h'.phase == Done(ResetBy(ReplayRetention)) <==>
        && h.after.Some? && h.after.value <= h.second
        && exists s :: h.after.value < s <= |log| && Lost(rows, log, s)
  {
    hide *;
    LocalOf(tr, actions, i, id, ReadMinimum);
    ResetTestIff(tr, actions, i, id);
    SteadyRowsAreWhole(tr, actions, i);
    var h := tr[i].handlers[id];
    MinimumRead(h, tr[i].rows, tr[i].log);
    if h.after.Some? && h.after.value <= h.second {
      LostFromTheFront(tr[i].rows, tr[i].log, h.after.value);
    }
  }

  // ----- the replay -----

  lemma RangeIff(rows: seq<Record>, log: seq<Record>, after: nat, through: nat)
    requires JournalInv(rows, log) && after <= through <= |log|
    ensures IsWholeRange(Between(rows, after, through), after, through) <==>
      forall s :: after < s <= through ==> !Lost(rows, log, s)
    ensures IsWholeRange(Between(rows, after, through), after, through) ==>
      Between(rows, after, through) == log[after..through]
  {
    var events := Between(rows, after, through);
    forall r ensures r in events <==> r in rows && after < r.sequence <= through {
      BetweenMembers(rows, after, through, r);
    }
    BetweenIncreasing(rows, after, through);
    if IsWholeRange(events, after, through) {
      RangeIsHistory(rows, log, after, through);
      forall s | after < s <= through ensures !Lost(rows, log, s) {
        assert log[s - 1] == log[after..through][s - 1 - after];
        assert log[s - 1] in events;
      }
    }
    if forall s :: after < s <= through ==> !Lost(rows, log, s) {
      forall s | after < s <= through ensures !Lost(events, log, s) {
        assert !Lost(rows, log, s);
      }
      hide Between;
      MembersAreRange(events, log, after, through);
    }
  }

  lemma {:induction false} MembersAreRange(events: seq<Record>, log: seq<Record>, after: nat, through: nat)
    requires after <= through <= |log| && Increasing(events)
    requires forall i :: 0 <= i < |log| ==> log[i].sequence == i + 1
    requires forall s :: after < s <= through ==> !Lost(events, log, s)
    requires forall e :: e in events ==> after < e.sequence <= through
    ensures IsWholeRange(events, after, through)
    decreases through
  {
    if after == through {
      assert forall i :: 0 <= i < |events| ==> events[i] in events;
    } else {
      var n := |events| - 1;
      assert !Lost(events, log, through);
      LastOfIncreasing(events, log[through - 1]);
      var rest := events[..n];
      forall s | after < s <= through - 1 ensures !Lost(rest, log, s) {
        assert !Lost(events, log, s);
        var i :| 0 <= i < |events| && events[i] == log[s - 1];
        assert i != n && rest[i] == log[s - 1];
      }
      forall e | e in rest ensures after < e.sequence <= through - 1 {
        var i :| 0 <= i < n && rest[i] == e;
        assert events[i] in events && events[i].sequence < events[n].sequence;
      }
      MembersAreRange(rest, log, after, through - 1);
      assert forall i :: 0 <= i < n ==> events[i] == rest[i];
    }
  }

  /** A replay fails as a gap exactly when a record of its range is gone; a peer
    * that takes every frame is left streaming, with exactly the history between
    * its cursor and the second watermark. */
  lemma ReplayServesIff(tr: seq<World>, actions: seq<Action>, i: nat, id: nat, accepted: nat)
    requires Behavior(tr, actions) && i < |actions| && actions[i] == Local(id, Replay(accepted))
    ensures id in tr[i].handlers && id in tr[i + 1].handlers
    ensures var h, h', rows, log := tr[i].handlers[id], tr[i + 1].handlers[id], tr[i].rows, tr[i].log;
      && h.after.Some? && h.after.value <= h.last <= h.second <= |log|
      && (h'.phase == Done(ResetBy(ReplayGap)) <==> exists s :: h.last < s <= h.second && Lost(rows, log, s))
      && (h'.phase != Done(ResetBy(ReplayGap)) && accepted >= h.second - h.last ==>
            h'.phase == Streaming && h'.last == h.second && h'.emitted == log[h.after.value..h.second])
      && (h'.phase != Done(ResetBy(ReplayGap)) && accepted < h.second - h.last ==> h'.phase == Done(Cancelled))
  {
    hide *;
    LocalOf(tr, actions, i, id, Replay(accepted));
    ReplayIs(tr[i].handlers[id], tr[i].rows, |tr[i].log|, accepted);
    ReplayRead(tr[i].handlers[id], tr[i].rows, tr[i].log, accepted);
  }

  lemma ReplayIs(h: Handler, rows: seq<Record>, high: nat, accepted: nat)
    requires Enabled(h, Replay(accepted))
    ensures AfterLocal(h, Replay(accepted), rows, high) == AfterReplay(h, rows, accepted) && h.phase.Listing?
  {
  }

  lemma ListingIs(h: Handler, log: seq<Record>)
    requires HandlerInv(h, log) && h.phase.Listing?
    ensures h.after == Some(h.last) && h.last < h.second <= |log|
    ensures h.emitted == log[h.last..h.last]
  {
  }

  lemma ReplayCases(h: Handler, rows: seq<Record>, accepted: nat, events: seq<Record>, whole: bool)
    requires events == Between(rows, h.last, h.second) && whole == IsWholeRange(events, h.last, h.second)
    ensures var h' := AfterReplay(h, rows, accepted);
      && (h'.phase == Done(ResetBy(ReplayGap)) <==> !whole)
      && (whole && accepted >= |events| ==>
            h'.phase == Streaming && h'.last == h.second && h'.emitted == h.emitted + events)
      && (whole && accepted < |events| ==> h'.phase == Done(Cancelled))
  {
    hide Between, IsWholeRange;
  }

  lemma ReplayRead(h: Handler, rows: seq<Record>, log: seq<Record>, accepted: nat)
    requires HandlerInv(h, log) && JournalInv(rows, log) && h.phase.Listing?
    ensures h.after.Some? && h.after.value <= h.last <= h.second <= |log|
    ensures var h' := AfterReplay(h, rows, accepted);
      && (h'.phase == Done(ResetBy(ReplayGap)) <==> exists s :: h.last < s <= h.second && Lost(rows, log, s))
      && (h'.phase != Done(ResetBy(ReplayGap)) && accepted >= h.second - h.last ==>
            h'.phase == Streaming && h'.last == h.second && h'.emitted == log[h.after.value..h.second])
      && (h'.phase != Done(ResetBy(ReplayGap)) && accepted < h.second - h.last ==> h'.phase == Done(Cancelled))
  {
    hide *;
    ListingIs(h, log);
    RangeIff(rows, log, h.last, h.second);
    var events := Between(rows, h.last, h.second);
    ReplayCases(h, rows, accepted, events, IsWholeRange(events, h.last, h.second));
    assert log[h.after.value..h.last] + log[h.last..h.second] == log[h.after.value..h.second];
  }

  /** A listing handler passed the reset test earlier, with the same cursor. */
  lemma {:induction false} TestWasPassed(tr: seq<World>, actions: seq<Action>, j: nat, id: nat) returns (i: nat)
    requires Behavior(tr, actions) && j < |tr| && id in tr[j].handlers && tr[j].handlers[id].phase.Listing?
    ensures i < j && i < |actions| && actions[i] == Local(id, ReadMinimum) && id in tr[i].handlers
    ensures tr[i].handlers[id].after == tr[j].handlers[id].after
    ensures id in tr[i + 1].handlers && tr[i + 1].handlers[id].phase.Listing?
  {
    hide *;
    BehaviorStarts(tr, actions);
    if j == 0 {
      assert false;
    }
    StepOf(tr, actions, j - 1);
    ListingStep(tr[j - 1], tr[j], actions[j - 1], id);
    if actions[j - 1] == Local(id, ReadMinimum) {
      i := j - 1;
    } else {
      i := TestWasPassed(tr, actions, j - 1, id);
    }
  }

  lemma ListingStep(w: World, w': World, a: Action, id: nat)
    requires Next(w, w', a) && id in w'.handlers && w'.handlers[id].phase.Listing?
    ensures id in w.handlers && w'.handlers[id].after == w.handlers[id].after
    ensures a != Local(id, ReadMinimum) ==> w.handlers[id].phase.Listing?
  {
    hide Between, IsWholeRange;
  }

  /** In one interval, if anything of a range is gone its first record is. */
  lemma FirstLostIsLost(rows: seq<Record>, log: seq<Record>, after: nat, through: nat)
    requires JournalInv(rows, log) && Contiguous(rows) && after < through <= |log|
    ensures Lost(rows, log, after + 1) <==> exists s :: after < s <= through && Lost(rows, log, s)
  {
    WholeRowsAreSuffix(rows, log);
    var first := if rows == [] then 1 else rows[0].sequence;
    forall s | 1 <= s <= |log| ensures Lost(rows, log, s) <==> s < first {
      SuffixHolds(rows, log, first, s);
    }
  }

  lemma {:induction false} LogGrows(tr: seq<World>, actions: seq<Action>, i: nat, j: nat)
    requires Behavior(tr, actions) && i <= j < |tr|
    ensures tr[i].log <= tr[j].log
  {
    hide *;
    BehaviorStarts(tr, actions);
    if i < j {
      LogGrows(tr, actions, i, j - 1);
      StepOf(tr, actions, j - 1);
      LogStep(tr[j - 1], tr[j], actions[j - 1]);
    }
  }

  lemma LogStep(w: World, w': World, a: Action)
    requires Next(w, w', a)
    ensures w.log <= w'.log
  {
    hide AfterLocal, Enabled, AppendedRows;
  }

  lemma KeptIsKept(w: World, w': World, after: nat)
    requires w.log <= w'.log && w.rows <= w'.rows && after < |w.log| && !Lost(w.rows, w.log, after + 1)
    ensures !Lost(w'.rows, w'.log, after + 1)
  {
    var i :| 0 <= i < |w.rows| && w.rows[i] == w.log[after];
    assert w'.rows[i] == w.rows[i];
  }

  /** If the clock never stepped back, a cursor that passed the reset test is
    * served when nothing it could see then has been pruned since: the replay of a
    * peer that takes every frame ends streaming, with the history from the cursor
    * to the second watermark.  A prune in between is noticed exactly when it took
    * the record after the cursor. */
  lemma GoodCursorIsServed(tr: seq<World>, actions: seq<Action>, j: nat, id: nat, accepted: nat) returns (i: nat)
    requires Behavior(tr, actions) && SteadyClock(actions)
    requires j < |actions| && actions[j] == Local(id, Replay(accepted))
    ensures id in tr[j].handlers && id in tr[j + 1].handlers
    ensures i < j && actions[i] == Local(id, ReadMinimum) && id in tr[i].handlers
    ensures var h, h', log := tr[j].handlers[id], tr[j + 1].handlers[id], tr[j].log;
      && h.after.Some? && h.after == tr[i].handlers[id].after && h.after.value < h.second <= |log|
      && (h'.phase == Done(ResetBy(ReplayGap)) <==> Lost(tr[j].rows, log, h.after.value + 1))
      && (tr[i].rows <= tr[j].rows && accepted >= h.second - h.after.value ==>
            h'.phase == Streaming && h'.emitted == log[h.after.value..h.second])
  {
    hide *;
    LocalOf(tr, actions, j, id, Replay(accepted));
    var h, rows, log := tr[j].handlers[id], tr[j].rows, tr[j].log;
    ReplayIs(h, rows, |log|, accepted);
    ListingIs(h, log);
    ReplayServesIff(tr, actions, j, id, accepted);
    SteadyRowsAreWhole(tr, actions, j);
    FirstLostIsLost(rows, log, h.last, h.second);
    i := TestWasPassed(tr, actions, j, id);
    StepOf(tr, actions, i);
    LogGrows(tr, actions, i, j);
    LocalOf(tr, actions, i, id, ReadMinimum);
    MinimumRead(tr[i].handlers[id], tr[i].rows, tr[i].log);
    ResetTestIff(tr, actions, i, id);
    RetentionResetIff(tr, actions, i, id);
    if tr[i].rows <= rows {
      KeptIsKept(tr[i], tr[j], h.last);
    }
  }

  // ----- the live loop -----

  /** A record taken from the queue is one of the history.  One that was walked is
    * dropped, the next one is delivered, a later one ends the stream as a gap. */
  lemma ConsumeIff(tr: seq<World>, actions: seq<Action>, i: nat, id: nat, takes: bool)
    requires Behavior(tr, actions) && i < |actions| && actions[i] == Local(id, Consume(takes))
    requires id in tr[i].handlers && !tr[i].handlers[id].sub.closed
    ensures id in tr[i + 1].handlers && tr[i].handlers[id].sub.received.Some?
    ensures var h, h', log := tr[i].handlers[id], tr[i + 1].handlers[id], tr[i].log;
      var s := h.sub.received.value.sequence;
      && 1 <= s <= |log| && h.sub.received.value == log[s - 1]
      && (s <= h.last ==> h'.phase == Streaming && h'.last == h.last && h'.emitted == h.emitted)
      && (s == h.last + 1 && takes ==>
            h'.phase == Streaming && h'.last == s && h'.emitted == h.emitted + [log[h.last]])
      && (s == h.last + 1 && !takes ==> h'.phase == Done(Cancelled))
      && (s > h.last + 1 <==> h'.phase == Done(ResetBy(ReplayGap)))
  {
    hide *;
    LocalOf(tr, actions, i, id, Consume(takes));
    ConsumeRead(tr[i].handlers[id], tr[i].log, takes);
    ConsumeIs(tr[i].handlers[id], tr[i].rows, |tr[i].log|, takes);
  }

  lemma ConsumeIs(h: Handler, rows: seq<Record>, high: nat, takes: bool)
    requires Enabled(h, Consume(takes))
    ensures AfterLocal(h, Consume(takes), rows, high) == AfterConsume(h, takes) && h.phase.Streaming?
  {
  }

  lemma ConsumeRead(h: Handler, log: seq<Record>, takes: bool)
    requires HandlerInv(h, log) && Enabled(h, Consume(takes)) && !h.sub.closed
    ensures h.sub.received.Some?
    ensures var h', s := AfterConsume(h, takes), h.sub.received.value.sequence;
      && 1 <= s <= |log| && h.sub.received.value == log[s - 1]
      && (s <= h.last ==> h'.phase == Streaming && h'.last == h.last && h'.emitted == h.emitted)
      && (s == h.last + 1 && takes ==>
            h'.phase == Streaming && h'.last == s && h'.emitted == h.emitted + [log[h.last]])
      && (s == h.last + 1 && !takes ==> h'.phase == Done(Cancelled))
      && (s > h.last + 1 <==> h'.phase == Done(ResetBy(ReplayGap)))
  {
    ConsumedPending(h.sub, log);
    hide HandlerInv, Consumed, QueueInv, Pending;
  }

  /** A subscriber is reset as slow exactly when a record it should hold finds its
    * queue full, by count or by the bytes of all it holds. */
  lemma SlowConsumerIff(tr: seq<World>, actions: seq<Action>, i: nat, id: nat)
    requires Behavior(tr, actions) && i < |actions| && actions[i] == PumpFan(id)
    ensures id in tr[i].handlers && id in tr[i + 1].handlers && tr[i].pump.Fanning?
    ensures var s, s', e := tr[i].handlers[id].sub, tr[i + 1].handlers[id].sub, tr[i].pump.current;
      && (s.reset.None? && s'.reset.Some? <==>
            && !s.closed && s.reset.None? && s.live && e.sequence > s.suppressThrough
            && (|s.queue| >= MAXIMUM_QUEUE_COUNT || Bytes(Pending(s)) + |e.payload| > MAXIMUM_QUEUE_BYTES))
      && (s'.reset != s.reset ==> s'.reset == Some(SlowConsumer))
      && (!s.closed && s.reset.None? && s.live && e.sequence > s.suppressThrough && s'.reset.None? ==>
            Pending(s') == Pending(s) + [e])
  {
    StepOf(tr, actions, i);
    var w, h := tr[i], tr[i].handlers[id];
    assert HandlerInv(h, w.log);
    OfferedPending(h.sub, w.pump.current);
    hide Behavior, WorldInv, Pending, Bytes;
  }
}
