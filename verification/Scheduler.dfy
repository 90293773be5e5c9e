/** The barrier scheduler of one round of tool calls: contiguous parallel calls
  * share a bounded pool, every other call runs alone, and the results come back
  * in model order.
  */
module ToolScheduler {
  import opened Wrappers

  const MAXIMUM_PARALLEL: nat := 8

  datatype Call = Call(name: string, arguments: string)

  const PARALLEL_TOOLS: set<string> := {
    "list_files", "search_files", "read_file", "read_tool_result", "read_image", "web_search", "web_fetch",
    "terminal_read", "terminal_list", "get_goal", "task_list", "task_get", "task_logs"}

  predicate RunsInParallel(call: Call) {
    call.name in PARALLEL_TOOLS
  }

  // ----- the groups -----

  function ParallelPrefix(calls: seq<Call>): (n: nat)
    ensures n <= |calls|
  {
    if calls != [] && RunsInParallel(calls[0]) then 1 + ParallelPrefix(calls[1..]) else 0
  }

  function GroupLength(calls: seq<Call>): (n: nat)
    requires calls != []
    ensures 0 < n <= |calls|
  {
    if RunsInParallel(calls[0]) then 1 + ParallelPrefix(calls[1..]) else 1
  }

  function Groups(calls: seq<Call>): seq<seq<Call>>
    decreases |calls|
  {
    if calls == [] then []
    else
      var n := GroupLength(calls);
      [calls[..n]] + Groups(calls[n..])
  }

  function Flattened(groups: seq<seq<Call>>): seq<Call> {
    if groups == [] then [] else groups[0] + Flattened(groups[1..])
  }

  lemma {:induction false} PrefixIsParallel(calls: seq<Call>)
    ensures var n := ParallelPrefix(calls);
      (forall i :: 0 <= i < n ==> RunsInParallel(calls[i])) && (n < |calls| ==> !RunsInParallel(calls[n]))
  {
    if calls != [] && RunsInParallel(calls[0]) {
      PrefixIsParallel(calls[1..]);
      var n := ParallelPrefix(calls[1..]);
      forall i | 0 <= i < n + 1 ensures RunsInParallel(calls[i]) {
        assert i > 0 ==> calls[i] == calls[1..][i - 1];
      }
    }
  }

  /** A group is one exclusive call or a maximal run of parallel ones. */
  lemma GroupShape(calls: seq<Call>)
    requires calls != []
    ensures var n := GroupLength(calls);
      && (RunsInParallel(calls[0]) ==> forall i :: 0 <= i < n ==> RunsInParallel(calls[i]))
      && (RunsInParallel(calls[0]) && n < |calls| ==> !RunsInParallel(calls[n]))
      && (!RunsInParallel(calls[0]) ==> n == 1)
  {
    PrefixIsParallel(calls[1..]);
    var n := GroupLength(calls);
    forall i | 0 <= i < n && RunsInParallel(calls[0]) ensures RunsInParallel(calls[i]) {
      assert i > 0 ==> calls[i] == calls[1..][i - 1];
    }
  }

  lemma {:induction false} GroupsFlatten(calls: seq<Call>)
    ensures Flattened(Groups(calls)) == calls
    decreases |calls|
  {
    if calls != [] {
      var n := GroupLength(calls);
      GroupsFlatten(calls[n..]);
      assert Groups(calls)[1..] == Groups(calls[n..]);
      assert calls[..n] + calls[n..] == calls;
    }
  }

  lemma {:induction false} GroupsShape(calls: seq<Call>)
    ensures forall group :: group in Groups(calls) ==>
      group != [] && (|group| == 1 || forall call :: call in group ==> RunsInParallel(call))
    decreases |calls|
  {
    if calls != [] {
      var n := GroupLength(calls);
      GroupShape(calls);
      GroupsShape(calls[n..]);
      assert forall call :: call in calls[..n] ==> exists i :: 0 <= i < n && calls[i] == call;
    }
  }

  lemma FirstOfGroups(calls: seq<Call>)
    requires Groups(calls) != []
    ensures calls != [] && Groups(calls)[0] != [] && Groups(calls)[0][0] == calls[0]
  {
  }

  /** Two groups that may follow each other: not both are parallel. */
  predicate MayFollow(first: seq<Call>, second: seq<Call>) {
    first != [] && second != [] ==> !RunsInParallel(first[0]) || !RunsInParallel(second[0])
  }

  ghost predicate Alternate(groups: seq<seq<Call>>) {
    forall g :: 0 < g < |groups| ==> MayFollow(groups[g - 1], groups[g])
  }

  lemma AlternateCons(first: seq<Call>, rest: seq<seq<Call>>)
    requires Alternate(rest) && (rest != [] ==> MayFollow(first, rest[0]))
    ensures Alternate([first] + rest)
  {
    hide MayFollow;
    var groups := [first] + rest;
    forall g | 0 < g < |groups| ensures MayFollow(groups[g - 1], groups[g]) {
      assert groups[g] == rest[g - 1];
      if g > 1 {
        assert groups[g - 1] == rest[g - 2];
      }
    }
  }

  lemma {:induction false} GroupsAlternate(calls: seq<Call>)
    ensures Alternate(Groups(calls))
    decreases |calls|
  {
    if calls != [] {
      var n := GroupLength(calls);
      GroupShape(calls);
      GroupsAlternate(calls[n..]);
      if n < |calls| {
        FirstOfGroups(calls[n..]);
        assert calls[n..][0] == calls[n] && calls[..n][0] == calls[0];
      }
      AlternateCons(calls[..n], Groups(calls[n..]));
    }
  }

  /** The groups are the calls, in order, cut exactly at the barriers: no group
    * is empty, only parallel calls share one, and two parallel groups never
    * follow each other. */
  lemma GroupsAreBarriers(calls: seq<Call>)
    ensures var groups := Groups(calls);
      && Flattened(groups) == calls
      && (forall group :: group in groups ==>
            group != [] && (|group| == 1 || forall call :: call in group ==> RunsInParallel(call)))
      && (forall g :: 0 < g < |groups| ==> !RunsInParallel(groups[g - 1][0]) || !RunsInParallel(groups[g][0]))
  {
    GroupsFlatten(calls);
    GroupsShape(calls);
    GroupsAlternate(calls);
    var groups := Groups(calls);
    forall g | 0 < g < |groups| ensures !RunsInParallel(groups[g - 1][0]) || !RunsInParallel(groups[g][0]) {
      assert MayFollow(groups[g - 1], groups[g]) && groups[g - 1] in groups && groups[g] in groups;
    }
  }

  /** The inner loop: where the group that begins at `start` ends. */
  method GroupEnd(calls: seq<Call>, start: nat) returns (end: nat)
    requires start < |calls|
    ensures start < end <= |calls|
    ensures forall k :: start < k < end ==> RunsInParallel(calls[start]) && RunsInParallel(calls[k])
    ensures RunsInParallel(calls[start]) && end < |calls| ==> !RunsInParallel(calls[end])
  {
    hide *;
    end := start + 1;
    if RunsInParallel(calls[start]) {
      while end < |calls| && RunsInParallel(calls[end])
        invariant start < end <= |calls|
        invariant forall k :: start <= k < end ==> RunsInParallel(calls[k])
      {
        end := end + 1;
      }
    }
  }

  method RoundGroups(calls: seq<Call>) returns (groups: seq<seq<Call>>)
    ensures groups == Groups(calls)
  {
    groups := [];
    var start := 0;
    assert calls[0..] == calls && [] + Groups(calls) == Groups(calls);
    assert calls[|calls|..] == [] && Groups([]) == [];
    hide *;
    while start < |calls|
      invariant start <= |calls|
      invariant groups + Groups(calls[start..]) == Groups(calls)
    {
      var end := GroupEnd(calls, start);
      GroupCut(calls, start, end);
      assert groups + ([calls[start..end]] + Groups(calls[end..])) == groups + [calls[start..end]] + Groups(calls[end..]);
      groups := groups + [calls[start..end]];
      start := end;
    }
  }

  lemma {:induction false} PrefixLength(calls: seq<Call>, n: nat)
    requires n <= |calls| && forall k :: 0 <= k < n ==> RunsInParallel(calls[k])
    requires n < |calls| ==> !RunsInParallel(calls[n])
    ensures ParallelPrefix(calls) == n
  {
    if n > 0 {
      PrefixLength(calls[1..], n - 1);
    }
  }

  lemma GroupCut(calls: seq<Call>, start: nat, end: nat)
    requires start < end <= |calls|
    requires forall k :: start < k < end ==> RunsInParallel(calls[start]) && RunsInParallel(calls[k])
    requires RunsInParallel(calls[start]) && end < |calls| ==> !RunsInParallel(calls[end])
    ensures Groups(calls[start..]) == [calls[start..end]] + Groups(calls[end..])
  {
    CutLength(calls, start, end);
    hide GroupLength, RunsInParallel;
    var rest := calls[start..];
    assert Groups(rest) == [rest[..end - start]] + Groups(rest[end - start..]);
    assert rest[..end - start] == calls[start..end] && rest[end - start..] == calls[end..];
  }

  lemma CutLength(calls: seq<Call>, start: nat, end: nat)
    requires start < end <= |calls|
    requires forall k :: start < k < end ==> RunsInParallel(calls[start]) && RunsInParallel(calls[k])
    requires RunsInParallel(calls[start]) && end < |calls| ==> !RunsInParallel(calls[end])
    ensures GroupLength(calls[start..]) == end - start
  {
    var tail := calls[start + 1..];
    assert calls[start..][1..] == tail && calls[start..][0] == calls[start];
    assert end > start + 1 ==> RunsInParallel(calls[start + 1]);
    if RunsInParallel(calls[start]) {
      hide RunsInParallel;
      assert forall k :: 0 <= k < |tail| ==> tail[k] == calls[start + 1 + k];
      PrefixLength(tail, end - start - 1);
    }
  }

  // ----- running them one by one -----

  /** What executing the calls in order does: the final state and every result,
    * a failed call's result included. */
  function Sequential<S, R>(run: (S, Call) -> (S, R), state: S, calls: seq<Call>): (S, seq<R>)
    decreases |calls|
  {
    if calls == [] then (state, [])
    else
      var (before, results) := Sequential(run, state, calls[..|calls| - 1]);
      var (after, result) := run(before, calls[|calls| - 1]);
      (after, results + [result])
  }

  // ----- the concurrent round -----

  datatype Cell<R> = Waiting | Queued | Running | Worked(outcome: R) | Finished

  /** `start` is the first call of the current group and `launched` the next one
    * to launch; `slots` are the pool's tickets and `inlined` is the call that
    * runs on the scheduler's own goroutine. */
  datatype Round<S, R> = Round(
    state: S, start: nat, launched: nat, cells: seq<Cell<R>>, results: seq<Option<R>>,
    slots: set<nat>, inlined: Option<nat>, cancelled: bool)

  datatype Step<S, R> =
    | Launch
    | Acquire(i: nat)
    | Work(i: nat, state: S, outcome: R)
    | Finish(i: nat)
    | NextGroup
    | Cancel

  function End(calls: seq<Call>, start: nat): (n: nat)
    requires start <= |calls|
    ensures start <= n <= |calls| && (start < |calls| ==> n > start)
  {
    if start == |calls| then start else start + GroupLength(calls[start..])
  }

  /** A group of one call, and everything launched after a cancellation, runs
    * inline; the rest is queued for the pool. */
  predicate RunsInline(calls: seq<Call>, start: nat, cancelled: bool)
    requires start <= |calls|
  {
    cancelled || End(calls, start) == start + 1
  }

  ghost predicate Next<S, R>(run: (S, Call) -> (S, R), calls: seq<Call>, r: Round<S, R>, r': Round<S, R>,
      step: Step<S, R>)
    requires r.start <= |calls| && |r.cells| == |calls| && |r.results| == |calls|
  {
    match step
    case Launch =>
      && r.inlined.None? && r.launched < End(calls, r.start)
      && if RunsInline(calls, r.start, r.cancelled)
         then r' == r.(launched := r.launched + 1, cells := r.cells[r.launched := Running], inlined := Some(r.launched))
         else r' == r.(launched := r.launched + 1, cells := r.cells[r.launched := Queued])
    case Acquire(i) =>
      && i < |calls| && r.cells[i].Queued? && |r.slots| < MAXIMUM_PARALLEL
      && r' == r.(cells := r.cells[i := Running], slots := r.slots + {i})
    case Work(i, state, outcome) =>
      && i < |calls| && r.cells[i].Running?
      && (!r.cancelled ==> (state, outcome) == run(r.state, calls[i]))
      && r' == r.(state := state, cells := r.cells[i := Worked(outcome)])
    case Finish(i) =>
      && i < |calls| && r.cells[i].Worked?
      && r' == r.(cells := r.cells[i := Finished], results := r.results[i := Some(r.cells[i].outcome)],
                  slots := r.slots - {i}, inlined := if r.inlined == Some(i) then None else r.inlined)
    case NextGroup =>
      && r.start < |calls| && r.launched == End(calls, r.start)
      && (forall i :: r.start <= i < r.launched ==> r.cells[i].Finished?)
      && r' == r.(start := r.launched)
    case Cancel => r' == r.(cancelled := true)
  }

  function Begun<S, R>(calls: seq<Call>, state: S): Round<S, R> {
    Round(state, 0, 0, seq(|calls|, _ => Waiting), seq(|calls|, _ => None), {}, None, false)
  }

  ghost predicate Behavior<S, R>(run: (S, Call) -> (S, R), calls: seq<Call>, state: S, tr: seq<Round<S, R>>,
      steps: seq<Step<S, R>>) {
    && |tr| == |steps| + 1 && tr[0] == Begun(calls, state)
    && (forall i :: 0 <= i < |steps| ==>
          && tr[i].start <= |calls| && |tr[i].cells| == |calls| && |tr[i].results| == |calls|
          && Next(run, calls, tr[i], tr[i + 1], steps[i]))
  }

  // ----- the structure every step keeps -----

  /** Where call i stands: finished groups lie before `start`, unlaunched calls
    * from `launched` on, and exactly the running ones are active. */
  predicate Placed<R>(cell: Cell<R>, i: nat, start: nat, launched: nat, active: bool) {
    && (i < start ==> cell.Finished?)
    && (cell.Waiting? <==> launched <= i)
    && (active <==> cell.Running? || cell.Worked?)
    && (cell.Queued? ==> start <= i)
  }

  predicate IsActive<S, R>(r: Round<S, R>, i: nat) {
    i in r.slots || r.inlined == Some(i)
  }

  ghost predicate PoolInv(start: nat, end: nat, size: nat, slots: set<nat>, inlined: Option<nat>, cancelled: bool) {
    && |slots| <= MAXIMUM_PARALLEL
    && (forall i :: i in slots ==> i < size)
    && (inlined.Some? ==> inlined.value < size && inlined.value !in slots)
    && (inlined.Some? && !cancelled ==> end == start + 1)
    && (end == start + 1 ==> slots == {})
  }

  ghost predicate Inv<S, R>(calls: seq<Call>, r: Round<S, R>) {
    && r.start <= |calls| && |r.cells| == |calls| && |r.results| == |calls|
    && r.start <= r.launched <= End(calls, r.start)
    && (forall i :: 0 <= i < |calls| ==> Placed(r.cells[i], i, r.start, r.launched, IsActive(r, i)))
    && (End(calls, r.start) == r.start + 1 ==> forall i :: 0 <= i < |calls| ==> !r.cells[i].Queued?)
    && PoolInv(r.start, End(calls, r.start), |calls|, r.slots, r.inlined, r.cancelled)
  }

  lemma LaunchKeeps<S, R>(run: (S, Call) -> (S, R), calls: seq<Call>, r: Round<S, R>, r': Round<S, R>)
    requires Inv(calls, r) && Next(run, calls, r, r', Launch)
    ensures Inv(calls, r')
  {
    hide End;
    assert Placed(r.cells[r.launched], r.launched, r.start, r.launched, IsActive(r, r.launched));
    assert !IsActive(r, r.launched);
    forall k | 0 <= k < |calls| ensures Placed(r'.cells[k], k, r'.start, r'.launched, IsActive(r', k)) {
      assert Placed(r.cells[k], k, r.start, r.launched, IsActive(r, k));
    }
  }

  lemma AcquireKeeps<S, R>(run: (S, Call) -> (S, R), calls: seq<Call>, r: Round<S, R>, r': Round<S, R>, i: nat)
    requires Inv(calls, r) && Next(run, calls, r, r', Acquire(i))
    ensures Inv(calls, r')
  {
    hide End;
    assert Placed(r.cells[i], i, r.start, r.launched, IsActive(r, i));
    assert !IsActive(r, i);
    forall k | 0 <= k < |calls| ensures Placed(r'.cells[k], k, r'.start, r'.launched, IsActive(r', k)) {
      assert Placed(r.cells[k], k, r.start, r.launched, IsActive(r, k));
    }
  }

  lemma WorkKeeps<S, R>(run: (S, Call) -> (S, R), calls: seq<Call>, r: Round<S, R>, r': Round<S, R>, i: nat,
      state: S, outcome: R)
    requires Inv(calls, r) && Next(run, calls, r, r', Work(i, state, outcome))
    ensures Inv(calls, r')
  {
    hide End, PoolInv;
  }

  lemma FinishKeeps<S, R>(run: (S, Call) -> (S, R), calls: seq<Call>, r: Round<S, R>, r': Round<S, R>, i: nat)
    requires Inv(calls, r) && Next(run, calls, r, r', Finish(i))
    ensures Inv(calls, r')
  {
    hide End;
  }

  lemma CancelKeeps<S, R>(run: (S, Call) -> (S, R), calls: seq<Call>, r: Round<S, R>, r': Round<S, R>)
    requires Inv(calls, r) && Next(run, calls, r, r', Cancel)
    ensures Inv(calls, r')
  {
    hide End;
  }

  lemma AdvanceKeeps<S, R>(run: (S, Call) -> (S, R), calls: seq<Call>, r: Round<S, R>, r': Round<S, R>)
    requires Inv(calls, r) && Next(run, calls, r, r', NextGroup)
    ensures Inv(calls, r')
  {
    hide End;
    forall i: nat ensures !IsActive(r, i) {
      if i < |calls| {
        assert Placed(r.cells[i], i, r.start, r.launched, IsActive(r, i));
      }
    }
    assert forall i :: i in r.slots ==> IsActive(r, i);
    assert r.inlined.Some? ==> IsActive(r, r.inlined.value);
    assert r.slots == {} && r.inlined.None?;
  }

  lemma NextKeepsInv<S, R>(run: (S, Call) -> (S, R), calls: seq<Call>, r: Round<S, R>, r': Round<S, R>,
      step: Step<S, R>)
    requires Inv(calls, r) && Next(run, calls, r, r', step)
    ensures Inv(calls, r')
  {
    match step
    case Launch => hide *; LaunchKeeps(run, calls, r, r');
    case Acquire(i) => hide *; AcquireKeeps(run, calls, r, r', i);
    case Work(i, state, outcome) => hide *; WorkKeeps(run, calls, r, r', i, state, outcome);
    case Finish(i) => hide *; FinishKeeps(run, calls, r, r', i);
    case NextGroup => hide *; AdvanceKeeps(run, calls, r, r');
    case Cancel => hide *; CancelKeeps(run, calls, r, r');
  }

  // ----- what runs together -----

  function Active<S, R>(r: Round<S, R>): set<nat> {
    r.slots + (if r.inlined.Some? then {r.inlined.value} else {})
  }

  lemma {:induction false} BehaviorKeepsInv<S, R>(run: (S, Call) -> (S, R), calls: seq<Call>, state: S,
                                                  tr: seq<Round<S, R>>, steps: seq<Step<S, R>>, i: nat)
    requires Behavior(run, calls, state, tr, steps) && i < |tr|
    ensures Inv(calls, tr[i])
  {
    if i > 0 {
      BehaviorKeepsInv(run, calls, state, tr, steps, i - 1);
      NextKeepsInv(run, calls, tr[i - 1], tr[i], steps[i - 1]);
    }
  }

  /** Only one group runs at a time; a call that is not parallel never overlaps
    * another; the pool holds at most eight calls, and a ninth only runs beside
    * it after a cancellation, on the scheduler's own goroutine. */
  lemma NothingOverlapsABarrier<S, R>(run: (S, Call) -> (S, R), calls: seq<Call>, state: S,
                                      tr: seq<Round<S, R>>, steps: seq<Step<S, R>>, n: nat)
    requires Behavior(run, calls, state, tr, steps) && n < |tr|
    ensures Inv(calls, tr[n])
    ensures var r := tr[n];
      && (forall i :: 0 <= i < |calls| ==> (i in Active(r) <==> r.cells[i].Running? || r.cells[i].Worked?))
      && |Active(r)| <= MAXIMUM_PARALLEL + (if r.cancelled then 1 else 0)
      && forall i, j :: i in Active(r) && j in Active(r) && i != j ==>
           && i < |calls| && j < |calls| && RunsInParallel(calls[i]) && RunsInParallel(calls[j])
           && r.start <= i < End(calls, r.start) && r.start <= j < End(calls, r.start)
  {
    BehaviorKeepsInv(run, calls, state, tr, steps, n);
    ActiveCalls(calls, tr[n]);
  }

  lemma ActiveCalls<S, R>(calls: seq<Call>, r: Round<S, R>)
    requires Inv(calls, r)
    ensures forall i :: 0 <= i < |calls| ==> (i in Active(r) <==> r.cells[i].Running? || r.cells[i].Worked?)
    ensures |Active(r)| <= MAXIMUM_PARALLEL + if r.cancelled then 1 else 0
    ensures forall i, j :: i in Active(r) && j in Active(r) && i != j ==>
      && i < |calls| && j < |calls| && RunsInParallel(calls[i]) && RunsInParallel(calls[j])
      && r.start <= i < End(calls, r.start) && r.start <= j < End(calls, r.start)
  {
    assert forall i :: 0 <= i < |calls| && i in Active(r) ==> Placed(r.cells[i], i, r.start, r.launched, true);
    if r.start < |calls| {
      GroupIsUniform(calls, r.start);
    }
    hide End, RunsInParallel;
  }

  // ----- when a ninth call runs -----

  /** A group that fits the pool never has more than eight calls running. */
  lemma FittingGroupStaysWithin<S, R>(calls: seq<Call>, r: Round<S, R>)
    requires Inv(calls, r) && End(calls, r.start) - r.start <= MAXIMUM_PARALLEL
    ensures |Active(r)| <= MAXIMUM_PARALLEL
  {
    ActiveCalls(calls, r);
    if |Active(r)| > 1 {
      ActiveInGroup(calls, r);
      WithinInterval(Active(r), r.start, End(calls, r.start));
    }
  }

  lemma ActiveInGroup<S, R>(calls: seq<Call>, r: Round<S, R>)
    requires Inv(calls, r) && |Active(r)| > 1
    ensures forall i :: i in Active(r) ==> r.start <= i < End(calls, r.start)
  {
    ActiveCalls(calls, r);
    forall i | i in Active(r) ensures r.start <= i < End(calls, r.start) {
      if forall j :: j in Active(r) ==> j == i {
        SubsetSize(Active(r), {i});
      }
      var j :| j in Active(r) && j != i;
    }
  }

  lemma {:induction false} WithinInterval(a: set<nat>, lo: nat, hi: nat)
    requires lo <= hi && forall i :: i in a ==> lo <= i < hi
    ensures |a| <= hi - lo
    decreases hi
  {
    if lo < hi {
      WithinInterval(a - {hi - 1}, lo, hi - 1);
    } else {
      assert a == {};
    }
  }

  lemma {:induction false} SubsetSize(a: set<nat>, b: set<nat>)
    requires a <= b
    ensures |a| <= |b|
    decreases |a|
  {
    if a != {} {
      var x :| x in a;
      SubsetSize(a - {x}, b - {x});
    }
  }

  ghost predicate LeavesGroups(calls: seq<Call>, start: nat, g: nat)
    requires start <= |calls|
  {
    g <= |Groups(calls)| && Groups(calls)[g..] == Groups(calls[start..])
  }

  /** The groups left at `start` are the last groups of the round. */
  ghost predicate AtBoundary(calls: seq<Call>, start: nat) {
    start <= |calls| && exists g: nat :: LeavesGroups(calls, start, g)
  }

  lemma SuffixStep(all: seq<seq<Call>>, g: nat, first: seq<Call>, rest: seq<seq<Call>>)
    requires g <= |all| && all[g..] == [first] + rest
    ensures g < |all| && first in all && all[g + 1..] == rest
  {
    assert all[g] == first;
    assert all[g + 1..] == all[g..][1..];
  }

  lemma NextBoundary(calls: seq<Call>, start: nat)
    requires start < |calls| && AtBoundary(calls, start)
    ensures AtBoundary(calls, End(calls, start))
    ensures calls[start..End(calls, start)] in Groups(calls)
  {
    GroupsFrom(calls, start);
    hide Groups, End;
    var end := End(calls, start);
    var g: nat :| LeavesGroups(calls, start, g);
    SuffixStep(Groups(calls), g, calls[start..end], Groups(calls[end..]));
    assert LeavesGroups(calls, end, g + 1);
  }

  lemma GroupsFrom(calls: seq<Call>, start: nat)
    requires start < |calls|
    ensures Groups(calls[start..]) == [calls[start..End(calls, start)]] + Groups(calls[End(calls, start)..])
  {
    var rest, n := calls[start..], GroupLength(calls[start..]);
    assert Groups(rest) == [rest[..n]] + Groups(rest[n..]);
    hide Groups, GroupLength;
    assert rest[n..] == calls[start + n..] && rest[..n] == calls[start..start + n];
  }

  lemma {:induction false} StartsAtBoundary<S, R>(run: (S, Call) -> (S, R), calls: seq<Call>, state: S,
                                                  tr: seq<Round<S, R>>, steps: seq<Step<S, R>>, i: nat)
    requires Behavior(run, calls, state, tr, steps) && i < |tr|
    ensures AtBoundary(calls, tr[i].start)
  {
    if i == 0 {
      assert LeavesGroups(calls, 0, 0) by { assert calls[0..] == calls && Groups(calls)[0..] == Groups(calls); }
    } else {
      StartsAtBoundary(run, calls, state, tr, steps, i - 1);
      assert Next(run, calls, tr[i - 1], tr[i - 1 + 1], steps[i - 1]);
      if steps[i - 1].NextGroup? {
        NextBoundary(calls, tr[i - 1].start);
      }
    }
  }

  lemma Stepped<S, R>(run: (S, Call) -> (S, R), calls: seq<Call>, state: S, tr: seq<Round<S, R>>,
                      steps: seq<Step<S, R>>, r: Round<S, R>, step: Step<S, R>)
    returns (tr': seq<Round<S, R>>, steps': seq<Step<S, R>>)
    requires Behavior(run, calls, state, tr, steps) && Inv(calls, tr[|steps|])
    requires Next(run, calls, tr[|steps|], r, step)
    ensures Behavior(run, calls, state, tr', steps') && tr'[|steps'|] == r && Inv(calls, r)
  {
    NextKeepsInv(run, calls, tr[|steps|], r, step);
    tr', steps' := tr + [r], steps + [step];
    assert tr[|steps|].start <= |calls| && |tr[|steps|].cells| == |calls| && |tr[|steps|].results| == |calls|;
    hide Next, Inv;
    forall i | 0 <= i < |steps'|
      ensures tr'[i].start <= |calls| && |tr'[i].cells| == |calls| && |tr'[i].results| == |calls|
      ensures Next(run, calls, tr'[i], tr'[i + 1], steps'[i])
    {
      if i < |steps| {
        assert tr'[i] == tr[i] && tr'[i + 1] == tr[i + 1] && steps'[i] == steps[i];
      } else {
        assert tr'[i] == tr[|steps|] && tr'[i + 1] == r && steps'[i] == step;
      }
    }
  }

  /** Between two calls of a group that run one after another. */
  ghost predicate Steady<S, R>(calls: seq<Call>, r: Round<S, R>, start: nat, launched: nat) {
    && Inv(calls, r) && r.start == start && r.launched == launched
    && r.slots == {} && r.inlined.None? && !r.cancelled
    && forall i :: start <= i < launched ==> r.cells[i].Finished?
  }

  /** One call from launch to finish. */
  lemma CallAlone<S, R>(run: (S, Call) -> (S, R), calls: seq<Call>, state: S, tr: seq<Round<S, R>>,
                        steps: seq<Step<S, R>>, start: nat, i: nat)
    returns (tr': seq<Round<S, R>>, steps': seq<Step<S, R>>)
    requires Behavior(run, calls, state, tr, steps) && start <= |calls| && i < End(calls, start)
    requires Steady(calls, tr[|steps|], start, i)
    ensures Behavior(run, calls, state, tr', steps') && Steady(calls, tr'[|steps'|], start, i + 1)
  {
    var r0 := tr[|steps|];
    hide Behavior, End, Placed, PoolInv;
    var r1: Round<S, R>;
    if RunsInline(calls, start, false) {
      r1 := r0.(launched := i + 1, cells := r0.cells[i := Running], inlined := Some(i));
      tr', steps' := Stepped(run, calls, state, tr, steps, r1, Launch);
    } else {
      var q := r0.(launched := i + 1, cells := r0.cells[i := Queued]);
      tr', steps' := Stepped(run, calls, state, tr, steps, q, Launch);
      r1 := q.(cells := q.cells[i := Running], slots := q.slots + {i});
      tr', steps' := Stepped(run, calls, state, tr', steps', r1, Acquire(i));
    }
    var (after, outcome) := run(r1.state, calls[i]);
    var r2 := r1.(state := after, cells := r1.cells[i := Worked(outcome)]);
    tr', steps' := Stepped(run, calls, state, tr', steps', r2, Work(i, after, outcome));
    var r3 := r2.(cells := r2.cells[i := Finished], results := r2.results[i := Some(outcome)],
                  slots := {}, inlined := None);
    assert r2.slots - {i} == {};
    tr', steps' := Stepped(run, calls, state, tr', steps', r3, Finish(i));
  }

  /** The calls of a group one after another, and on to the next group. */
  lemma {:induction false} GroupAlone<S, R>(run: (S, Call) -> (S, R), calls: seq<Call>, state: S,
                                            tr: seq<Round<S, R>>, steps: seq<Step<S, R>>, start: nat, i: nat)
    returns (tr': seq<Round<S, R>>, steps': seq<Step<S, R>>)
    requires Behavior(run, calls, state, tr, steps) && start < |calls| && start <= i <= End(calls, start)
    requires Steady(calls, tr[|steps|], start, i)
    ensures Behavior(run, calls, state, tr', steps') && Steady(calls, tr'[|steps'|], End(calls, start), End(calls, start))
    decreases End(calls, start) - i
  {
    if i < End(calls, start) {
      tr', steps' := CallAlone(run, calls, state, tr, steps, start, i);
      hide Behavior, Steady, End;
      tr', steps' := GroupAlone(run, calls, state, tr', steps', start, i + 1);
    } else {
      hide Behavior, End, Placed, PoolInv;
      var r := tr[|steps|].(start := i);
      tr', steps' := Stepped(run, calls, state, tr, steps, r, NextGroup);
    }
  }

  /** Every group is reached, with nothing running. */
  lemma {:induction false} GroupIsReached<S, R>(run: (S, Call) -> (S, R), calls: seq<Call>, state: S, tr: seq<Round<S, R>>,
                                                steps: seq<Step<S, R>>, start: nat, group: seq<Call>)
    returns (tr': seq<Round<S, R>>, steps': seq<Step<S, R>>, at: nat)
    requires Behavior(run, calls, state, tr, steps) && start <= |calls| && Steady(calls, tr[|steps|], start, start)
    requires group in Groups(calls[start..])
    ensures Behavior(run, calls, state, tr', steps') && at < |calls| && Steady(calls, tr'[|steps'|], at, at)
    ensures End(calls, at) - at == |group|
    decreases |calls| - start
  {
    assert start < |calls|;
    GroupsFrom(calls, start);
    hide Behavior, Steady, Groups, End;
    var end := End(calls, start);
    if group == calls[start..end] {
      tr', steps', at := tr, steps, start;
    } else {
      tr', steps' := GroupAlone(run, calls, state, tr, steps, start, start);
      tr', steps', at := GroupIsReached(run, calls, state, tr', steps', end, group);
    }
  }

  /** The first k calls of a large group have taken slots. */
  ghost predicate Filling<S, R>(calls: seq<Call>, r: Round<S, R>, start: nat, k: nat) {
    && Inv(calls, r) && r.start == start && r.launched == start + k && r.inlined.None? && !r.cancelled
    && |r.slots| == k && forall i :: i in r.slots ==> i < start + k
  }

  lemma {:induction false} PoolFills<S, R>(run: (S, Call) -> (S, R), calls: seq<Call>, state: S,
                                           tr: seq<Round<S, R>>, steps: seq<Step<S, R>>, start: nat, k: nat)
    returns (tr': seq<Round<S, R>>, steps': seq<Step<S, R>>)
    requires Behavior(run, calls, state, tr, steps) && start < |calls| && k <= MAXIMUM_PARALLEL
    requires End(calls, start) - start > MAXIMUM_PARALLEL && Filling(calls, tr[|steps|], start, k)
    ensures Behavior(run, calls, state, tr', steps') && Filling(calls, tr'[|steps'|], start, MAXIMUM_PARALLEL)
    decreases MAXIMUM_PARALLEL - k
  {
    assert |tr| == |steps| + 1;
    hide Behavior, End;
    tr', steps' := tr, steps;
    if k < MAXIMUM_PARALLEL {
      var r0, i := tr[|steps|], start + k;
      var q := r0.(launched := i + 1, cells := r0.cells[i := Queued]);
      tr', steps' := Stepped(run, calls, state, tr, steps, q, Launch);
      var r1 := q.(cells := q.cells[i := Running], slots := q.slots + {i});
      tr', steps' := Stepped(run, calls, state, tr', steps', r1, Acquire(i));
      hide Inv;
      tr', steps' := PoolFills(run, calls, state, tr', steps', start, k + 1);
    }
  }

  lemma BehaviorLength<S, R>(run: (S, Call) -> (S, R), calls: seq<Call>, state: S, tr: seq<Round<S, R>>,
                             steps: seq<Step<S, R>>)
    requires Behavior(run, calls, state, tr, steps)
    ensures |tr| == |steps| + 1
  {
  }

  /** With the pool full the round is cancelled, and the next call runs inline. */
  lemma NinthRuns<S, R>(run: (S, Call) -> (S, R), calls: seq<Call>, state: S, tr: seq<Round<S, R>>,
                        steps: seq<Step<S, R>>, start: nat)
    returns (tr': seq<Round<S, R>>, steps': seq<Step<S, R>>)
    requires Behavior(run, calls, state, tr, steps) && start < |calls|
    requires End(calls, start) - start > MAXIMUM_PARALLEL && Steady(calls, tr[|steps|], start, start)
    ensures Behavior(run, calls, state, tr', steps') && |Active(tr'[|steps'|])| == MAXIMUM_PARALLEL + 1
  {
    hide Behavior, End, Placed, PoolInv;
    tr', steps' := PoolFills(run, calls, state, tr, steps, start, 0);
    assert |tr'| == |steps'| + 1 by { BehaviorLength(run, calls, state, tr', steps'); }
    var r0, i := tr'[|steps'|], start + MAXIMUM_PARALLEL;
    var r1 := r0.(cancelled := true);
    tr', steps' := Stepped(run, calls, state, tr', steps', r1, Cancel);
    var r2 := r1.(launched := i + 1, cells := r1.cells[i := Running], inlined := Some(i));
    tr', steps' := Stepped(run, calls, state, tr', steps', r2, Launch);
    assert i !in r2.slots;
  }

  ghost predicate Overfull<S, R>(run: (S, Call) -> (S, R), calls: seq<Call>, state: S, tr: seq<Round<S, R>>,
      steps: seq<Step<S, R>>, n: nat) {
    Behavior(run, calls, state, tr, steps) && n < |tr| && |Active(tr[n])| > MAXIMUM_PARALLEL
  }

  /** More than eight calls run at once in some interleaving exactly when some
    * group has more than eight calls. */
  lemma NinthRunsIff<S, R>(run: (S, Call) -> (S, R), calls: seq<Call>, state: S)
    ensures (exists tr, steps, n :: Overfull(run, calls, state, tr, steps, n)) <==>
      exists group :: group in Groups(calls) && |group| > MAXIMUM_PARALLEL
  {
    if exists tr, steps, n :: Overfull(run, calls, state, tr, steps, n) {
      var tr, steps, n :| Overfull(run, calls, state, tr, steps, n);
      OverfullNeedsLargeGroup(run, calls, state, tr, steps, n);
    }
    if exists group :: group in Groups(calls) && |group| > MAXIMUM_PARALLEL {
      var group :| group in Groups(calls) && |group| > MAXIMUM_PARALLEL;
      var tr, steps := LargeGroupOverfills(run, calls, state, group);
    }
  }

  lemma OverfullNeedsLargeGroup<S, R>(run: (S, Call) -> (S, R), calls: seq<Call>, state: S, tr: seq<Round<S, R>>,
                                      steps: seq<Step<S, R>>, n: nat)
    requires Overfull(run, calls, state, tr, steps, n)
    ensures exists group :: group in Groups(calls) && |group| > MAXIMUM_PARALLEL
  {
    BehaviorKeepsInv(run, calls, state, tr, steps, n);
    StartsAtBoundary(run, calls, state, tr, steps, n);
    var start := tr[n].start;
    if End(calls, start) - start <= MAXIMUM_PARALLEL {
      FittingGroupStaysWithin(calls, tr[n]);
    } else {
      hide Behavior, Inv;
      NextBoundary(calls, start);
      assert |calls[start..End(calls, start)]| > MAXIMUM_PARALLEL;
    }
  }

  lemma LargeGroupOverfills<S, R>(run: (S, Call) -> (S, R), calls: seq<Call>, state: S, group: seq<Call>)
    returns (tr: seq<Round<S, R>>, steps: seq<Step<S, R>>)
    requires group in Groups(calls) && |group| > MAXIMUM_PARALLEL
    ensures Overfull(run, calls, state, tr, steps, |steps|)
  {
    tr, steps := [Begun(calls, state)], [];
    BehaviorKeepsInv(run, calls, state, tr, steps, 0);
    assert calls[0..] == calls;
    assert Steady(calls, tr[0], 0, 0);
    hide Inv, Steady, Groups, End;
    ghost var at: nat;
    tr, steps, at := GroupIsReached(run, calls, state, tr, steps, 0, group);
    tr, steps := NinthRuns(run, calls, state, tr, steps, at);
  }

  // ----- serializability -----

  /** Parallel-classified tools only read. */
  ghost predicate ReadOnly<S(!new), R>(run: (S, Call) -> (S, R)) {
    forall state, call :: RunsInParallel(call) ==> run(state, call).0 == state
  }

  /** The outcome a call of the current group has produced so far. */
  function OutcomeOf<S, R>(r: Round<S, R>, i: nat): Option<R>
    requires i < |r.cells| == |r.results|
  {
    if r.cells[i].Worked? then Some(r.cells[i].outcome) else if r.cells[i].Finished? then r.results[i] else None
  }

  /** Before the group the round did what the calls do one by one; inside it, a
    * call that has worked has that outcome, and only an exclusive call that has
    * worked has changed the state. */
  ghost predicate Serial<S, R>(run: (S, Call) -> (S, R), calls: seq<Call>, state: S, r: Round<S, R>)
    requires r.start <= |calls| && |r.cells| == |calls| && |r.results| == |calls|
  {
    && (forall i :: 0 <= i < r.start ==> r.results[i] == Some(run(Sequential(run, state, calls[..i]).0, calls[i]).1))
    && (forall i :: r.start <= i < End(calls, r.start) && OutcomeOf(r, i).Some? ==>
          OutcomeOf(r, i) == Some(run(Sequential(run, state, calls[..r.start]).0, calls[i]).1))
    && (forall i :: r.start <= i < |calls| && r.cells[i].Finished? ==> r.results[i].Some?)
    && r.state == (if r.start < |calls| && !RunsInParallel(calls[r.start]) && OutcomeOf(r, r.start).Some?
                   then run(Sequential(run, state, calls[..r.start]).0, calls[r.start]).0
                   else Sequential(run, state, calls[..r.start]).0)
  }

  lemma {:induction false} SequentialLength<S, R>(run: (S, Call) -> (S, R), state: S, calls: seq<Call>)
    ensures |Sequential(run, state, calls).1| == |calls|
    decreases |calls|
  {
    if calls != [] {
      SequentialLength(run, state, calls[..|calls| - 1]);
    }
  }

  lemma SequentialStep<S, R>(run: (S, Call) -> (S, R), state: S, calls: seq<Call>, n: nat)
    requires n < |calls|
    ensures var before, after := Sequential(run, state, calls[..n]), Sequential(run, state, calls[..n + 1]);
      && |before.1| == n && |after.1| == n + 1
      && after.0 == run(before.0, calls[n]).0 && after.1 == before.1 + [run(before.0, calls[n]).1]
  {
    assert calls[..n + 1][..n] == calls[..n];
    SequentialLength(run, state, calls[..n]);
  }

  /** Inside a parallel group the state never moves. */
  lemma {:induction false} ReadOnlyGroup<S(!new), R>(run: (S, Call) -> (S, R), state: S, calls: seq<Call>,
      start: nat, n: nat)
    requires ReadOnly(run) && start <= n <= |calls|
    requires forall i :: start <= i < n ==> RunsInParallel(calls[i])
    ensures Sequential(run, state, calls[..n]).0 == Sequential(run, state, calls[..start]).0
    decreases n
  {
    if start < n {
      ReadOnlyGroup(run, state, calls, start, n - 1);
      SequentialStep(run, state, calls, n - 1);
      assert run(Sequential(run, state, calls[..n - 1]).0, calls[n - 1]).0 == Sequential(run, state, calls[..n - 1]).0;
    }
  }

  lemma GroupIsUniform(calls: seq<Call>, start: nat)
    requires start < |calls|
    ensures RunsInParallel(calls[start]) ==> forall i :: start <= i < End(calls, start) ==> RunsInParallel(calls[i])
    ensures !RunsInParallel(calls[start]) ==> End(calls, start) == start + 1
  {
    var rest := calls[start..];
    GroupShape(rest);
    assert forall i :: start <= i < End(calls, start) ==> calls[i] == rest[i - start];
  }

  lemma WorkIsSerial<S(!new), R>(run: (S, Call) -> (S, R), calls: seq<Call>, s0: S, r: Round<S, R>, r': Round<S, R>,
                                 i: nat, state: S, outcome: R)
    requires ReadOnly(run) && Inv(calls, r) && Serial(run, calls, s0, r) && !r.cancelled
    requires Next(run, calls, r, r', Work(i, state, outcome))
    ensures Serial(run, calls, s0, r')
  {
    assert Placed(r.cells[i], i, r.start, r.launched, IsActive(r, i));
    GroupIsUniform(calls, r.start);
    hide End, IsActive, PoolInv, Sequential;
    assert r.start <= i < End(calls, r.start);
    assert OutcomeOf(r, i).None?;
    assert r.state == Sequential(run, s0, calls[..r.start]).0;
  }

  /** What each call of a finished group returned, and what the group did. */
  lemma GroupIsSerial<S(!new), R>(run: (S, Call) -> (S, R), calls: seq<Call>, s0: S, start: nat, i: nat)
    requires ReadOnly(run) && start < |calls| && start <= i < End(calls, start)
    ensures run(Sequential(run, s0, calls[..start]).0, calls[i]).1 == run(Sequential(run, s0, calls[..i]).0, calls[i]).1
    ensures Sequential(run, s0, calls[..End(calls, start)]).0 ==
            if RunsInParallel(calls[start]) then Sequential(run, s0, calls[..start]).0
            else run(Sequential(run, s0, calls[..start]).0, calls[start]).0
  {
    GroupIsUniform(calls, start);
    hide ReadOnly, RunsInParallel, Sequential;
    if RunsInParallel(calls[start]) {
      ReadOnlyGroup(run, s0, calls, start, i);
      ReadOnlyGroup(run, s0, calls, start, End(calls, start));
    } else {
      SequentialStep(run, s0, calls, start);
    }
  }

  lemma AdvanceIsSerial<S(!new), R>(run: (S, Call) -> (S, R), calls: seq<Call>, s0: S, r: Round<S, R>, r': Round<S, R>)
    requires ReadOnly(run) && Inv(calls, r) && Serial(run, calls, s0, r)
    requires Next(run, calls, r, r', NextGroup)
    ensures Serial(run, calls, s0, r')
  {
    GroupIsSerial(run, calls, s0, r.start, r.start);
    assert OutcomeOf(r, r.start).Some?;
    forall i | r.start <= i < r.launched ensures r.results[i] == Some(run(Sequential(run, s0, calls[..i]).0, calls[i]).1) {
      assert OutcomeOf(r, i).Some?;
      GroupIsSerial(run, calls, s0, r.start, i);
    }
    forall i | r.launched <= i < |calls| ensures OutcomeOf(r', i).None? && !r'.cells[i].Finished? {
      assert Placed(r.cells[i], i, r.start, r.launched, IsActive(r, i));
    }
    hide End, IsActive, PoolInv, Sequential, Placed, ReadOnly, RunsInParallel;
  }

  lemma LaunchIsSerial<S(!new), R>(run: (S, Call) -> (S, R), calls: seq<Call>, s0: S, r: Round<S, R>, r': Round<S, R>)
    requires Inv(calls, r) && Serial(run, calls, s0, r) && Next(run, calls, r, r', Launch)
    ensures Serial(run, calls, s0, r')
  {
    assert Placed(r.cells[r.launched], r.launched, r.start, r.launched, IsActive(r, r.launched));
    assert OutcomeOf(r, r.launched).None?;
    hide Inv, End, IsActive, PoolInv, Sequential, Placed, ReadOnly, RunsInParallel, RunsInline;
  }

  lemma AcquireIsSerial<S(!new), R>(run: (S, Call) -> (S, R), calls: seq<Call>, s0: S, r: Round<S, R>,
      r': Round<S, R>, i: nat)
    requires Inv(calls, r) && Serial(run, calls, s0, r) && Next(run, calls, r, r', Acquire(i))
    ensures Serial(run, calls, s0, r')
  {
    assert OutcomeOf(r, i).None?;
    hide Inv, End, IsActive, PoolInv, Sequential, Placed, ReadOnly, RunsInParallel, RunsInline;
  }

  lemma FinishIsSerial<S(!new), R>(run: (S, Call) -> (S, R), calls: seq<Call>, s0: S, r: Round<S, R>,
      r': Round<S, R>, i: nat)
    requires Inv(calls, r) && Serial(run, calls, s0, r) && Next(run, calls, r, r', Finish(i))
    ensures Serial(run, calls, s0, r')
  {
    assert Placed(r.cells[i], i, r.start, r.launched, IsActive(r, i));
    assert OutcomeOf(r', i) == OutcomeOf(r, i);
    hide Inv, End, IsActive, PoolInv, Sequential, Placed, ReadOnly, RunsInParallel, RunsInline;
  }

  lemma NextIsSerial<S(!new), R>(run: (S, Call) -> (S, R), calls: seq<Call>, s0: S, r: Round<S, R>, r': Round<S, R>,
      step: Step<S, R>)
    requires ReadOnly(run) && Inv(calls, r) && Serial(run, calls, s0, r) && !r'.cancelled && Next(run, calls, r, r', step)
    ensures Inv(calls, r') && Serial(run, calls, s0, r')
  {
    NextKeepsInv(run, calls, r, r', step);
    match step
    case Work(i, state, outcome) => assert !r.cancelled; hide *; WorkIsSerial(run, calls, s0, r, r', i, state, outcome);
    case NextGroup => hide *; AdvanceIsSerial(run, calls, s0, r, r');
    case Launch => hide *; LaunchIsSerial(run, calls, s0, r, r');
    case Acquire(i) => hide *; AcquireIsSerial(run, calls, s0, r, r', i);
    case Finish(i) => hide *; FinishIsSerial(run, calls, s0, r, r', i);
    case Cancel =>
  }

  lemma {:induction false} BehaviorIsSerial<S(!new), R>(run: (S, Call) -> (S, R), calls: seq<Call>, state: S,
                                                        tr: seq<Round<S, R>>, steps: seq<Step<S, R>>, i: nat)
    requires ReadOnly(run) && Behavior(run, calls, state, tr, steps) && i < |tr| && !tr[i].cancelled
    ensures Inv(calls, tr[i]) && Serial(run, calls, state, tr[i])
  {
    BehaviorKeepsInv(run, calls, state, tr, steps, i);
    if i > 0 {
      BehaviorIsSerial(run, calls, state, tr, steps, i - 1);
      NextIsSerial(run, calls, state, tr[i - 1], tr[i], steps[i - 1]);
    } else {
      assert calls[..0] == [];
    }
  }

  /** If parallel-classified tools only read, then every interleaving that ends
    * uncancelled leaves the state and the result vector that running the calls
    * one by one does. */
  lemma RoundIsSerializable<S(!new), R>(run: (S, Call) -> (S, R), calls: seq<Call>, state: S,
                                        tr: seq<Round<S, R>>, steps: seq<Step<S, R>>, i: nat)
    requires ReadOnly(run) && Behavior(run, calls, state, tr, steps)
    requires i < |tr| && !tr[i].cancelled && tr[i].start == |calls|
    ensures var expected := Sequential(run, state, calls);
      && tr[i].state == expected.0 && |expected.1| == |calls| == |tr[i].results|
      && forall k :: 0 <= k < |calls| ==> tr[i].results[k] == Some(expected.1[k])
  {
    BehaviorIsSerial(run, calls, state, tr, steps, i);
    assert calls[..|calls|] == calls;
    SequentialLength(run, state, calls);
    forall k | 0 <= k < |calls| ensures tr[i].results[k] == Some(Sequential(run, state, calls).1[k]) {
      SequentialAt(run, state, calls, k, |calls|);
    }
  }

  lemma {:induction false} SequentialAt<S, R>(run: (S, Call) -> (S, R), state: S, calls: seq<Call>, k: nat, n: nat)
    requires k < n <= |calls|
    ensures |Sequential(run, state, calls[..n]).1| == n
    ensures Sequential(run, state, calls[..n]).1[k] == run(Sequential(run, state, calls[..k]).0, calls[k]).1
    decreases n
  {
    SequentialStep(run, state, calls, n - 1);
    if k < n - 1 {
      SequentialAt(run, state, calls, k, n - 1);
    }
  }
}
