/** A round of tool calls always ends, cancelled or not, with every call executed
  * exactly once and every result in its place.
  */
module ToolRoundProgress {
  import opened Wrappers
  import opened ToolScheduler

  /** How many steps a call still has before it. */
  function Ahead<R>(cell: Cell<R>): nat {
    match cell
    case Waiting => 4
    case Queued => 3
    case Running => 2
    case Worked(_) => 1
    case Finished => 0
  }

  function AheadOfAll<R>(cells: seq<Cell<R>>): nat {
    if cells == [] then 0 else AheadOfAll(cells[..|cells| - 1]) + Ahead(cells[|cells| - 1])
  }

  lemma {:induction false} CellMoves<R>(cells: seq<Cell<R>>, i: nat, cell: Cell<R>)
    requires i < |cells|
    ensures AheadOfAll(cells[i := cell]) == AheadOfAll(cells) - Ahead(cells[i]) + Ahead(cell)
  {
    var n := |cells| - 1;
    if i < n {
      CellMoves(cells[..n], i, cell);
      assert cells[i := cell][..n] == cells[..n][i := cell];
    } else {
      assert cells[i := cell][..n] == cells[..n];
    }
  }

  lemma {:induction false} AllWait<R>(cells: seq<Cell<R>>)
    requires forall i :: 0 <= i < |cells| ==> cells[i] == Waiting
    ensures AheadOfAll(cells) == 4 * |cells|
  {
    if cells != [] {
      AllWait(cells[..|cells| - 1]);
    }
  }

  function Distance<S, R>(calls: seq<Call>, r: Round<S, R>): nat
    requires r.start <= |calls|
  {
    AheadOfAll(r.cells) + |calls| - r.start
  }

  /** The steps that are not cancellations. */
  function Acts<S, R>(steps: seq<Step<S, R>>): nat {
    if steps == [] then 0 else Acts(steps[..|steps| - 1]) + if steps[|steps| - 1].Cancel? then 0 else 1
  }

  lemma StepComesCloser<S, R>(run: (S, Call) -> (S, R), calls: seq<Call>, r: Round<S, R>, r': Round<S, R>,
                              step: Step<S, R>)
    requires Inv(calls, r) && Next(run, calls, r, r', step) && r'.start <= |calls|
    ensures Distance(calls, r') + (if step.Cancel? then 0 else 1) <= Distance(calls, r)
  {
    match step
    case Launch =>
      assert Placed(r.cells[r.launched], r.launched, r.start, r.launched, IsActive(r, r.launched));
      hide Inv, AheadOfAll, End;
      CellMoves(r.cells, r.launched, r'.cells[r.launched]);
    case Acquire(i) => hide Inv, AheadOfAll, End; CellMoves(r.cells, i, Running);
    case Work(i, state, outcome) => hide Inv, AheadOfAll, End; CellMoves(r.cells, i, Worked(outcome));
    case Finish(i) => hide Inv, AheadOfAll, End; CellMoves(r.cells, i, Finished);
    case _ =>
  }

  /** A call is executed when it is worked: once it has been, exactly then its
    * cell says so, and its result is stored exactly when it is finished. */
  function Works<S, R>(steps: seq<Step<S, R>>, i: nat): nat {
    if steps == [] then 0
    else
      var last := steps[|steps| - 1];
      Works(steps[..|steps| - 1], i) + if last.Work? && last.i == i then 1 else 0
  }

  ghost predicate Recorded<S, R>(r: Round<S, R>, steps: seq<Step<S, R>>)
    requires |r.results| == |r.cells|
  {
    forall i :: 0 <= i < |r.cells| ==> RecordedAt(r.cells[i], r.results[i], Works(steps, i))
  }

  predicate RecordedAt<R>(cell: Cell<R>, result: Option<R>, works: nat) {
    && works == (if cell.Worked? || cell.Finished? then 1 else 0)
    && (result.Some? <==> cell.Finished?)
  }

  lemma WorksAppended<S, R>(steps: seq<Step<S, R>>, step: Step<S, R>, i: nat)
    ensures Works(steps + [step], i) == Works(steps, i) + if step.Work? && step.i == i then 1 else 0
  {
    assert (steps + [step])[..|steps|] == steps;
  }

  lemma StepIsRecorded<S, R>(run: (S, Call) -> (S, R), calls: seq<Call>, r: Round<S, R>, r': Round<S, R>,
                             steps: seq<Step<S, R>>, step: Step<S, R>)
    requires Inv(calls, r) && Next(run, calls, r, r', step) && Recorded(r, steps) && |r'.results| == |r'.cells|
    ensures Recorded(r', steps + [step])
  {
    if step.Launch? {
      assert Placed(r.cells[r.launched], r.launched, r.start, r.launched, IsActive(r, r.launched));
    }
    hide Inv, Works, End;
    forall i | 0 <= i < |r'.cells| ensures RecordedAt(r'.cells[i], r'.results[i], Works(steps + [step], i)) {
      WorksAppended(steps, step, i);
      assert RecordedAt(r.cells[i], r.results[i], Works(steps, i));
    }
  }

  lemma {:induction false} RunIsRecorded<S, R>(run: (S, Call) -> (S, R), calls: seq<Call>, state: S,
                                               tr: seq<Round<S, R>>, steps: seq<Step<S, R>>, i: nat)
    requires Behavior(run, calls, state, tr, steps) && i < |tr|
    ensures i <= |steps| && Inv(calls, tr[i]) && Recorded(tr[i], steps[..i])
    ensures Acts(steps[..i]) + Distance(calls, tr[i]) <= 5 * |calls|
  {
    BehaviorKeepsInv(run, calls, state, tr, steps, i);
    if i > 0 {
      RunIsRecorded(run, calls, state, tr, steps, i - 1);
      assert Next(run, calls, tr[i - 1], tr[i - 1 + 1], steps[i - 1]);
      assert steps[..i] == steps[..i - 1] + [steps[i - 1]] && steps[..i][..i - 1] == steps[..i - 1];
      var r := tr[i - 1];
      hide Behavior, Next, Recorded, Distance;
      StepComesCloser(run, calls, r, tr[i], steps[i - 1]);
      StepIsRecorded(run, calls, r, tr[i], steps[..i - 1], steps[i - 1]);
    } else {
      AllWait(tr[0].cells);
    }
  }

  /** Before the last group is over some step other than a cancellation can be
    * taken. */
  lemma CanStep<S, R>(run: (S, Call) -> (S, R), calls: seq<Call>, r: Round<S, R>)
    returns (r': Round<S, R>, step: Step<S, R>)
    requires Inv(calls, r) && r.start < |calls|
    ensures !step.Cancel? && Next(run, calls, r, r', step)
  {
    if i: nat :| i < |calls| && r.cells[i].Worked? {
      step := Finish(i);
      r' := r.(cells := r.cells[i := Finished], results := r.results[i := Some(r.cells[i].outcome)],
               slots := r.slots - {i}, inlined := if r.inlined == Some(i) then None else r.inlined);
    } else if i: nat :| i < |calls| && r.cells[i].Running? {
      var (state, outcome) := run(r.state, calls[i]);
      step := Work(i, state, outcome);
      r' := r.(state := state, cells := r.cells[i := Worked(outcome)]);
    } else {
      NobodyRuns(calls, r);
      if i: nat :| i < |calls| && r.cells[i].Queued? {
        step := Acquire(i);
        r' := r.(cells := r.cells[i := Running], slots := r.slots + {i});
      } else if r.launched < End(calls, r.start) {
        step := Launch;
        r' := if RunsInline(calls, r.start, r.cancelled)
          then r.(launched := r.launched + 1, cells := r.cells[r.launched := Running], inlined := Some(r.launched))
          else r.(launched := r.launched + 1, cells := r.cells[r.launched := Queued]);
      } else {
        forall i | r.start <= i < r.launched ensures r.cells[i].Finished? {
          assert Placed(r.cells[i], i, r.start, r.launched, IsActive(r, i));
        }
        step := NextGroup;
        r' := r.(start := r.launched);
      }
    }
  }

  lemma NobodyRuns<S, R>(calls: seq<Call>, r: Round<S, R>)
    requires Inv(calls, r)
    requires forall i :: 0 <= i < |calls| ==> !r.cells[i].Worked? && !r.cells[i].Running?
    ensures r.slots == {} && r.inlined.None?
  {
    forall i: nat ensures !IsActive(r, i) {
      if i < |calls| {
        assert Placed(r.cells[i], i, r.start, r.launched, IsActive(r, i));
      }
    }
    assert forall i :: i in r.slots ==> IsActive(r, i);
    assert r.inlined.Some? ==> IsActive(r, r.inlined.value);
  }

  lemma NothingLeft<S, R>(run: (S, Call) -> (S, R), calls: seq<Call>, r: Round<S, R>, r': Round<S, R>, step: Step<S, R>)
    requires Inv(calls, r) && r.start == |calls| && Next(run, calls, r, r', step)
    ensures step.Cancel?
  {
    forall i | 0 <= i < |calls| ensures r.cells[i].Finished? {
      assert Placed(r.cells[i], i, r.start, r.launched, IsActive(r, i));
    }
  }

  ghost predicate CanGoOn<S(!new), R(!new)>(run: (S, Call) -> (S, R), calls: seq<Call>, r: Round<S, R>)
    requires r.start <= |calls| && |r.cells| == |calls| && |r.results| == |calls|
  {
    exists r': Round<S, R>, step: Step<S, R> :: !step.Cancel? && Next(run, calls, r, r', step)
  }

  /** However calls interleave and whenever the round is cancelled, it never gets
    * stuck and takes at most five steps a call; it stops exactly when the last
    * group is over, and then every call has been executed once and has its
    * result. */
  lemma EveryRoundEnds<S(!new), R(!new)>(run: (S, Call) -> (S, R), calls: seq<Call>, state: S,
                                         tr: seq<Round<S, R>>, steps: seq<Step<S, R>>, i: nat)
    requires Behavior(run, calls, state, tr, steps) && i < |tr|
    ensures i <= |steps| && Acts(steps[..i]) <= 5 * |calls|
    ensures Inv(calls, tr[i]) && (tr[i].start == |calls| <==> !CanGoOn(run, calls, tr[i]))
    ensures tr[i].start == |calls| ==>
      forall k :: 0 <= k < |calls| ==> tr[i].results[k].Some? && Works(steps[..i], k) == 1
  {
    RunIsRecorded(run, calls, state, tr, steps, i);
    var r := tr[i];
    if r.start < |calls| {
      var r', step := CanStep(run, calls, r);
    } else {
      forall r': Round<S, R>, step: Step<S, R> | Next(run, calls, r, r', step) ensures step.Cancel? {
        NothingLeft(run, calls, r, r', step);
      }
      forall k | 0 <= k < |calls| ensures r.results[k].Some? && Works(steps[..i], k) == 1 {
        assert Placed(r.cells[k], k, r.start, r.launched, IsActive(r, k));
        assert RecordedAt(r.cells[k], r.results[k], Works(steps[..i], k));
      }
    }
  }
}
