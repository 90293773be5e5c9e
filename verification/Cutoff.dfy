/** The cancellation cutoff of a subagent tree.  One mutex serializes spawns,
  * driver admissions and cancellation preparation; another guards the cutoff
  * counters and the generation registry.  Store writes, releases and generation
  * registrations may fall between the steps of a spawn.
  */
module SubagentCutoff {
  import opened Wrappers
  import opened SubagentLineage

  /** What one cancellation holds from its preparation to its release. */
  datatype Cancellation = Cancellation(root: nat, descendants: seq<nat>, activityDone: set<nat>, generationDone: set<nat>)

  /** How far the spawn that holds the materialization mutex has got. */
  datatype Spawn =
    | NoSpawn
    | Admitted(parent: nat, depth: nat)
    | Created(parent: nat, depth: nat, child: nat)
    | Described(parent: nat, child: nat)

  /** Activities and generations carry a token for the channel closed when they
    * end; `used` holds every identifier ever issued. */
  datatype Agent = Agent(
    rows: seq<Row>, used: set<nat>, closing: map<nat, nat>, stopping: map<nat, nat>,
    activities: map<nat, nat>, generations: map<nat, nat>, tokens: nat,
    spawn: Spawn, outstanding: seq<Cancellation>)

  // ----- the counters -----

  function Count(counters: map<nat, nat>, id: nat): nat {
    if id in counters then counters[id] else 0
  }

  function Incremented(values: map<nat, nat>, id: nat): map<nat, nat> {
    values[id := Count(values, id) + 1]
  }

  function Raised(counters: map<nat, nat>, ids: seq<nat>): map<nat, nat> {
    if ids == [] then counters else Incremented(Raised(counters, ids[..|ids| - 1]), ids[|ids| - 1])
  }

  function Decremented(values: map<nat, nat>, id: nat): map<nat, nat> {
    if Count(values, id) <= 1 then map k | k in values && k != id :: values[k]
    else values[id := values[id] - 1]
  }

  function Lowered(counters: map<nat, nat>, ids: seq<nat>): map<nat, nat> {
    if ids == [] then counters else Decremented(Lowered(counters, ids[..|ids| - 1]), ids[|ids| - 1])
  }

  function Members(c: Cancellation): seq<nat> {
    [c.root] + c.descendants
  }

  function Held(map0: map<nat, nat>, ids: seq<nat>): set<nat> {
    set id | id in ids && id in map0 :: map0[id]
  }

  predicate AllDone(map0: map<nat, nat>, tokens: set<nat>) {
    forall id :: id in map0 ==> map0[id] !in tokens
  }

  function Dropped(map0: map<nat, nat>, id: nat): map<nat, nat> {
    map k | k in map0 && k != id :: map0[k]
  }

  // ----- the registry -----

  class Cutoffs {
    var closing: map<nat, nat>
    var stopping: map<nat, nat>
    var activities: map<nat, nat>
    var generations: map<nat, nat>
    var tokens: nat

    constructor ()
      ensures closing == map[] && stopping == map[] && activities == map[] && generations == map[] && tokens == 0
    {
      closing, stopping, activities, generations, tokens := map[], map[], map[], map[], 0;
    }

    /** Admits one driver for the conversation, unless it is being stopped or
      * already has one. */
    method BeginActivity(id: nat) returns (token: Option<nat>)
      modifies this`activities, this`tokens
      ensures token.Some? <==> Count(stopping, id) == 0 && id !in old(activities)
      ensures token.Some? ==> token.value == old(tokens) && tokens == old(tokens) + 1
      ensures activities == if token.Some? then old(activities)[id := token.value] else old(activities)
      ensures token.None? ==> tokens == old(tokens)
    {
      var stops := if id in stopping then stopping[id] else 0;
      if stops > 0 {
        return None;
      }
      if id in activities {
        return None;
      }
      token := Some(tokens);
      activities := activities[id := tokens];
      tokens := tokens + 1;
    }

    /** The closure the driver runs last: it only ends its own activity. */
    method FinishActivity(id: nat, token: nat)
      modifies this`activities
      ensures activities == if Count(old(activities), id) == token && id in old(activities)
                            then Dropped(old(activities), id) else old(activities)
    {
      if id in activities && activities[id] == token {
        activities := map k | k in activities && k != id :: activities[k];
      }
    }

    /** Raises the cutoff over the root and its descendants and captures what is
      * still running below the root. */
    method Prepare(root: nat, descendants: seq<nat>) returns (c: Cancellation)
      modifies this`closing, this`stopping
      ensures c == Cancellation(root, descendants, Held(activities, descendants), Held(generations, descendants))
      ensures closing == Raised(old(closing), Members(c))
      ensures stopping == Raised(old(stopping), descendants)
    {
      var activityDone: set<nat>, generationDone: set<nat> := {}, {};
      ghost var members := [root] + descendants;
      RaisedStart(closing, stopping, root, descendants);
      assert members[..|descendants| + 1] == members && descendants[..|descendants|] == descendants;
      closing := Incremented(closing, root);
      assert closing == Raised(old(closing), members[..1]) && stopping == Raised(old(stopping), descendants[..0]);
      assert Held(generations, descendants[..0]) == {} && Held(activities, descendants[..0]) == {};
      hide *;
      for index := 0 to |descendants|
        invariant closing == Raised(old(closing), members[..index + 1])
        invariant stopping == Raised(old(stopping), descendants[..index])
        invariant generationDone == Held(generations, descendants[..index])
      {
        var child := descendants[index];
        RaisedStep(old(closing), members, index + 1);
        RaisedStep(old(stopping), descendants, index);
        HeldStep(generations, descendants, index);
        closing := Incremented(closing, child);
        stopping := Incremented(stopping, child);
        if child in generations {
          generationDone := generationDone + {generations[child]};
        }
      }
      for index := 0 to |descendants|
        invariant closing == Raised(old(closing), members) && stopping == Raised(old(stopping), descendants)
        invariant activityDone == Held(activities, descendants[..index])
      {
        var child := descendants[index];
        HeldStep(activities, descendants, index);
        if child in activities {
          activityDone := activityDone + {activities[child]};
        }
      }
      c := Cancellation(root, descendants, activityDone, generationDone);
      assert Members(c) == members by {
        SameMembers(root, descendants, c);
      }
    }

    method Release(c: Cancellation)
      modifies this`closing, this`stopping
      ensures closing == Lowered(old(closing), Members(c))
      ensures stopping == Lowered(old(stopping), c.descendants)
    {
      var members := [c.root] + c.descendants;
      for index := 0 to |c.descendants|
        invariant closing == old(closing) && stopping == Lowered(old(stopping), c.descendants[..index])
      {
        assert c.descendants[..index + 1][..index] == c.descendants[..index];
        var id := c.descendants[index];
        stopping := Decremented(stopping, id);
      }
      assert c.descendants[..|c.descendants|] == c.descendants;
      for index := 0 to |members|
        invariant closing == Lowered(old(closing), members[..index])
        invariant stopping == Lowered(old(stopping), c.descendants)
      {
        assert members[..index + 1][..index] == members[..index];
        closing := Decremented(closing, members[index]);
      }
      assert members[..|members|] == members;
    }
  }

  lemma RaisedStart(closing: map<nat, nat>, stopping: map<nat, nat>, root: nat, descendants: seq<nat>)
    ensures Raised(closing, ([root] + descendants)[..1]) == Incremented(closing, root)
    ensures Raised(stopping, descendants[..0]) == stopping
  {
    assert ([root] + descendants)[..1] == [root] && [root][..0] == [];
  }

  lemma SameMembers(root: nat, descendants: seq<nat>, c: Cancellation)
    requires c.root == root && c.descendants == descendants
    ensures Members(c) == [root] + descendants
  {
  }

  lemma RaisedStep(counters: map<nat, nat>, ids: seq<nat>, index: nat)
    requires index < |ids|
    ensures Raised(counters, ids[..index + 1]) == Incremented(Raised(counters, ids[..index]), ids[index])
  {
    assert ids[..index + 1][..index] == ids[..index];
  }

  lemma HeldStep(map0: map<nat, nat>, ids: seq<nat>, index: nat)
    requires index < |ids|
    ensures Held(map0, ids[..index + 1]) ==
            Held(map0, ids[..index]) + if ids[index] in map0 then {map0[ids[index]]} else {}
  {
    assert ids[..index + 1] == ids[..index] + [ids[index]];
  }

  // ----- the transition system -----

  datatype Action =
    | CreateRoot(id: nat)
    | Admit(parent: nat)
    | CreateChild(id: nat)
    | DescribeChild
    | StartChild
    | AbandonSpawn
    | BeginDriver(id: nat)
    | FinishDriver(id: nat)
    | RegisterGeneration(id: nat)
    | EndGeneration(id: nat)
    | SetState(id: nat, running: bool, generating: bool)
    | DeleteTree(root: nat)
    | Prepare(root: nat, descendants: seq<nat>)
    | Release(index: nat)

  /** What a delete removes. */
  ghost predicate IsClosure(rows: seq<Row>, root: nat, deleted: set<nat>) {
    forall id :: id in deleted <==> id == root || Descends(rows, root, id)
  }

  ghost predicate CanBegin(a: Agent, id: nat) {
    Count(a.stopping, id) == 0 && id !in a.activities
  }

  function Begun(a: Agent, id: nat): Agent {
    a.(activities := a.activities[id := a.tokens], tokens := a.tokens + 1)
  }

  function DescribedRows(rows: seq<Row>, child: nat, parent: nat, depth: nat): seq<Row> {
    var found := Find(rows, child);
    if found.None? then rows
    else Replaced(rows, found.value.(parent := Some(parent), depth := depth, running := true))
  }

  ghost predicate Next(a: Agent, a': Agent, act: Action) {
    match act
    case CreateRoot(id) =>
      id !in a.used && a' == a.(rows := a.rows + [Row(id, None, 0, false, false)], used := a.used + {id})
    case Admit(parent) =>
      && a.spawn.NoSpawn? && Admissible(a.rows, Count(a.closing, parent) > 0, parent)
      && a' == a.(spawn := Admitted(parent, Find(a.rows, parent).value.depth + 1))
    case CreateChild(id) =>
      && a.spawn.Admitted? && id !in a.used
      && a' == a.(rows := a.rows + [Row(id, None, 0, false, false)], used := a.used + {id},
                  spawn := Created(a.spawn.parent, a.spawn.depth, id))
    case DescribeChild =>
      && a.spawn.Created? && Has(a.rows, a.spawn.child)
      && a' == a.(rows := DescribedRows(a.rows, a.spawn.child, a.spawn.parent, a.spawn.depth),
                  spawn := Described(a.spawn.parent, a.spawn.child))
    case StartChild =>
      && a.spawn.Described? && CanBegin(a, a.spawn.child)
      && a' == Begun(a, a.spawn.child).(spawn := NoSpawn)
    case AbandonSpawn => !a.spawn.NoSpawn? && a' == a.(spawn := NoSpawn)
    case BeginDriver(id) => a.spawn.NoSpawn? && CanBegin(a, id) && a' == Begun(a, id)
    case FinishDriver(id) =>
      a.spawn.NoSpawn? && id in a.activities && a' == a.(activities := Dropped(a.activities, id))
    case RegisterGeneration(id) =>
      && Count(a.stopping, id) == 0 && id !in a.generations
      && a' == a.(generations := a.generations[id := a.tokens], tokens := a.tokens + 1)
    case EndGeneration(id) => id in a.generations && a' == a.(generations := Dropped(a.generations, id))
    case SetState(id, running, generating) =>
      && Has(a.rows, id)
      && a' == a.(rows := Replaced(a.rows, Find(a.rows, id).value.(running := running, generating := generating)))
    case DeleteTree(root) =>
      && Has(a.rows, root) && !Find(a.rows, root).value.generating
      && exists deleted :: IsClosure(a.rows, root, deleted) && a' == a.(rows := Surviving(a.rows, deleted))
    case Prepare(root, descendants) =>
      && a.spawn.NoSpawn? && root in a.used
      && Distinct(descendants) && (forall id :: id in descendants <==> Descends(a.rows, root, id))
      && a' == a.(closing := Raised(a.closing, [root] + descendants), stopping := Raised(a.stopping, descendants),
                  outstanding := a.outstanding
                    + [Cancellation(root, descendants, Held(a.activities, descendants), Held(a.generations, descendants))])
    case Release(index) =>
      && index < |a.outstanding|
      && var c := a.outstanding[index];
         && AllDone(a.activities, c.activityDone) && AllDone(a.generations, c.generationDone)
         && a' == a.(closing := Lowered(a.closing, Members(c)), stopping := Lowered(a.stopping, c.descendants),
                     outstanding := a.outstanding[..index] + a.outstanding[index + 1..])
  }

  const INITIAL: Agent := Agent([], {}, map[], map[], map[], map[], 0, NoSpawn, [])

  ghost predicate Behavior(tr: seq<Agent>, actions: seq<Action>) {
    && |tr| == |actions| + 1 && tr[0] == INITIAL
    && (forall i :: 0 <= i < |actions| ==> Next(tr[i], tr[i + 1], actions[i]))
  }

  // ----- counting outstanding cancellations -----

  /** How many outstanding cancellations close the conversation. */
  function Closers(outstanding: seq<Cancellation>, id: nat): nat {
    if outstanding == [] then 0
    else Closers(outstanding[1..], id) + if id in Members(outstanding[0]) then 1 else 0
  }

  /** How many outstanding cancellations stop it. */
  function Stoppers(outstanding: seq<Cancellation>, id: nat): nat {
    if outstanding == [] then 0
    else Stoppers(outstanding[1..], id) + if id in outstanding[0].descendants then 1 else 0
  }

  ghost predicate Positive(counters: map<nat, nat>) {
    forall id :: id in counters ==> counters[id] > 0
  }

  ghost predicate CountersInv(a: Agent) {
    && Positive(a.closing) && Positive(a.stopping)
    && (forall id :: Count(a.closing, id) == Closers(a.outstanding, id))
    && (forall id :: Count(a.stopping, id) == Stoppers(a.outstanding, id))
  }

  // ----- invariants -----

  ghost predicate TableInv(a: Agent) {
    && UniqueIds(a.rows) && DepthInv(a.rows)
    && (forall row :: row in a.rows ==> row.id in a.used && (row.parent.Some? ==> row.parent.value in a.used))
  }

  /** Nothing closes the parent of a spawn in progress, its depth is the right
    * one, and the child it has created is nobody's parent. */
  ghost predicate SpawnInv(a: Agent) {
    match a.spawn
    case NoSpawn => true
    case Admitted(parent, depth) => ParentInv(a, parent, depth)
    case Created(parent, depth, child) =>
      && ParentInv(a, parent, depth) && child in a.used && child != parent
      && (forall row :: row in a.rows ==> row.parent != Some(child))
      && (forall row :: row in a.rows && row.id == child ==> row.parent.None?)
    case Described(parent, child) => forall c :: c in a.outstanding ==> parent !in Members(c)
  }

  ghost predicate ParentInv(a: Agent, parent: nat, depth: nat) {
    && parent in a.used && 1 <= depth <= MAXIMUM_DEPTH
    && (forall row :: row in a.rows && row.id == parent ==> row.depth + 1 == depth)
    && (forall c :: c in a.outstanding ==> parent !in Members(c))
  }

  /** Children of captured conversations are captured, and whatever runs on a
    * captured descendant was captured running. */
  ghost predicate CapturedInv(a: Agent, c: Cancellation) {
    && Distinct(c.descendants) && c.root !in c.descendants
    && (forall id :: id in Members(c) ==> id in a.used)
    && (forall row :: row in a.rows && row.parent.Some? && row.parent.value in Members(c) ==> row.id in c.descendants)
    && (forall id :: id in c.descendants && id in a.activities ==> a.activities[id] in c.activityDone)
    && (forall id :: id in c.descendants && id in a.generations ==> a.generations[id] in c.generationDone)
  }

  ghost predicate AllCaptured(a: Agent) {
    forall c :: c in a.outstanding ==> CapturedInv(a, c)
  }

  ghost predicate Inv(a: Agent) {
    TableInv(a) && CountersInv(a) && SpawnInv(a) && AllCaptured(a)
  }

  // ----- the counters count -----

  lemma {:induction false} RaisedCounts(counters: map<nat, nat>, ids: seq<nat>)
    requires Positive(counters) && Distinct(ids)
    ensures Positive(Raised(counters, ids))
    ensures forall id :: Count(Raised(counters, ids), id) == Count(counters, id) + if id in ids then 1 else 0
  {
    if ids != [] {
      var rest, last := ids[..|ids| - 1], ids[|ids| - 1];
      RaisedCounts(counters, rest);
      assert ids == rest + [last];
      assert last !in rest;
    }
  }

  lemma {:induction false} LoweredCounts(counters: map<nat, nat>, ids: seq<nat>)
    requires Positive(counters) && Distinct(ids) && forall id :: id in ids ==> Count(counters, id) > 0
    ensures Positive(Lowered(counters, ids))
    ensures forall id :: Count(Lowered(counters, ids), id) == Count(counters, id) - if id in ids then 1 else 0
  {
    if ids != [] {
      var rest, last := ids[..|ids| - 1], ids[|ids| - 1];
      assert ids == rest + [last];
      LoweredCounts(counters, rest);
      assert last !in rest;
    }
  }

  lemma {:induction false} CountsAppend(outstanding: seq<Cancellation>, c: Cancellation, id: nat)
    ensures Closers(outstanding + [c], id) == Closers(outstanding, id) + if id in Members(c) then 1 else 0
    ensures Stoppers(outstanding + [c], id) == Stoppers(outstanding, id) + if id in c.descendants then 1 else 0
  {
    if outstanding == [] {
      assert outstanding + [c] == [c];
    } else {
      CountsAppend(outstanding[1..], c, id);
      assert (outstanding + [c])[1..] == outstanding[1..] + [c];
    }
  }

  lemma {:induction false} CountsRemove(outstanding: seq<Cancellation>, index: nat, id: nat)
    requires index < |outstanding|
    ensures var left, c := outstanding[..index] + outstanding[index + 1..], outstanding[index];
      && Closers(outstanding, id) == Closers(left, id) + (if id in Members(c) then 1 else 0)
      && Stoppers(outstanding, id) == Stoppers(left, id) + (if id in c.descendants then 1 else 0)
  {
    var left := outstanding[..index] + outstanding[index + 1..];
    if index == 0 {
      assert left == outstanding[1..];
    } else {
      CountsRemove(outstanding[1..], index - 1, id);
      assert left[1..] == outstanding[1..][..index - 1] + outstanding[1..][index..];
      assert left[0] == outstanding[0];
    }
  }

  lemma {:induction false} CountsPositive(outstanding: seq<Cancellation>, id: nat)
    ensures Closers(outstanding, id) > 0 <==> exists c :: c in outstanding && id in Members(c)
    ensures Stoppers(outstanding, id) > 0 <==> exists c :: c in outstanding && id in c.descendants
  {
    if outstanding != [] {
      CountsPositive(outstanding[1..], id);
      assert outstanding == [outstanding[0]] + outstanding[1..];
    }
  }

  lemma PrepareCounts(a: Agent, c: Cancellation)
    requires CountersInv(a) && Distinct(c.descendants) && c.root !in c.descendants
    ensures CountersInv(a.(closing := Raised(a.closing, Members(c)), stopping := Raised(a.stopping, c.descendants),
                           outstanding := a.outstanding + [c]))
  {
    RaisedCounts(a.closing, Members(c));
    RaisedCounts(a.stopping, c.descendants);
    hide Raised, Distinct, Positive, Count;
    forall id
      ensures Closers(a.outstanding + [c], id) == Closers(a.outstanding, id) + if id in Members(c) then 1 else 0
      ensures Stoppers(a.outstanding + [c], id) == Stoppers(a.outstanding, id) + if id in c.descendants then 1 else 0
    {
      CountsAppend(a.outstanding, c, id);
    }
  }

  lemma ReleaseCounts(a: Agent, index: nat)
    requires CountersInv(a) && index < |a.outstanding|
    requires Distinct(a.outstanding[index].descendants) && a.outstanding[index].root !in a.outstanding[index].descendants
    ensures var c := a.outstanding[index];
      CountersInv(a.(closing := Lowered(a.closing, Members(c)), stopping := Lowered(a.stopping, c.descendants),
                     outstanding := a.outstanding[..index] + a.outstanding[index + 1..]))
  {
    var c := a.outstanding[index];
    forall id
      ensures Count(a.closing, id) > 0 <==> exists x :: x in a.outstanding && id in Members(x)
      ensures Count(a.stopping, id) > 0 <==> exists x :: x in a.outstanding && id in x.descendants
    {
      CountsPositive(a.outstanding, id);
    }
    LoweredCounts(a.closing, Members(c));
    LoweredCounts(a.stopping, c.descendants);
    hide Lowered, Distinct, Positive, Count;
    var left := a.outstanding[..index] + a.outstanding[index + 1..];
    forall id
      ensures Closers(a.outstanding, id) == Closers(left, id) + if id in Members(c) then 1 else 0
      ensures Stoppers(a.outstanding, id) == Stoppers(left, id) + if id in c.descendants then 1 else 0
    {
      CountsRemove(a.outstanding, index, id);
    }
  }

  // ----- the table -----

  lemma AddedRow(a: Agent, id: nat)
    requires TableInv(a) && id !in a.used
    ensures TableInv(a.(rows := a.rows + [Row(id, None, 0, false, false)], used := a.used + {id}))
  {
    forall i | 0 <= i < |a.rows| ensures a.rows[i].id != id {
      assert a.rows[i] in a.rows;
    }
  }

  /** A closed set of the table before a delete is one after it. */
  lemma DeletedTable(a: Agent, root: nat, deleted: set<nat>)
    requires TableInv(a) && IsClosure(a.rows, root, deleted)
    ensures TableInv(a.(rows := Surviving(a.rows, deleted)))
    ensures forall row :: row in Surviving(a.rows, deleted) ==> row in a.rows
  {
    DeleteKeepsForest(a.rows, root, deleted);
    forall row | row in Surviving(a.rows, deleted) ensures row in a.rows {
      SurvivingMembers(a.rows, deleted, row);
    }
  }

  /** The lineage columns of a row. */
  ghost predicate SameLineage(x: Row, y: Row) {
    y.id == x.id && y.parent == x.parent && y.depth == x.depth
  }

  ghost predicate OnlyStates(rows: seq<Row>, rows': seq<Row>) {
    forall x :: x in rows' ==> exists y :: y in rows && SameLineage(x, y)
  }

  lemma StatesKeepTable(a: Agent, rows: seq<Row>)
    requires TableInv(a) && UniqueIds(rows) && OnlyStates(a.rows, rows)
    ensures TableInv(a.(rows := rows))
  {
    hide UniqueIds;
    forall row, parent | row in rows && parent in rows && row.parent == Some(parent.id)
      ensures row.depth == parent.depth + 1
    {
      var row0 :| row0 in a.rows && SameLineage(row, row0);
      var parent0 :| parent0 in a.rows && SameLineage(parent, parent0);
    }
  }

  lemma StateSet(a: Agent, id: nat, running: bool, generating: bool)
    requires TableInv(a) && Has(a.rows, id)
    ensures var rows' := Replaced(a.rows, Find(a.rows, id).value.(running := running, generating := generating));
      TableInv(a.(rows := rows')) && OnlyStates(a.rows, rows')
  {
    var was := Find(a.rows, id).value;
    var row := was.(running := running, generating := generating);
    var rows' := Replaced(a.rows, row);
    forall x | x in rows' ensures exists y :: y in a.rows && SameLineage(x, y) {
      ReplacedMembers(a.rows, row, x);
      assert was in a.rows && SameLineage(row, was);
      assert SameLineage(x, x);
    }
    assert UniqueIds(rows');
    hide Replaced, Find;
    StatesKeepTable(a, rows');
  }

  // ----- each step keeps the invariant -----

  lemma CreateRootKeeps(a: Agent, a': Agent, id: nat)
    requires Inv(a) && Next(a, a', CreateRoot(id))
    ensures Inv(a')
  {
    AddedRow(a, id);
    hide UniqueIds, DepthInv, Positive, Count, Closers, Stoppers, Distinct, Find;
    assert forall row :: row in a'.rows ==> row in a.rows || (row.id == id && row.parent.None?);
  }

  lemma AdmitKeeps(a: Agent, a': Agent, parent: nat)
    requires Inv(a) && Next(a, a', Admit(parent))
    ensures Inv(a')
  {
    CountsPositive(a.outstanding, parent);
    var found := Find(a.rows, parent).value;
    forall row | row in a.rows && row.id == parent ensures row == found {
      FindUnique(a.rows, row);
    }
    assert found in a.rows;
    hide UniqueIds, Positive, Closers, Stoppers, Distinct, Find, Has;
  }

  lemma CreateChildKeeps(a: Agent, a': Agent, id: nat)
    requires Inv(a) && Next(a, a', CreateChild(id))
    ensures Inv(a')
  {
    AddedRow(a, id);
    hide UniqueIds, DepthInv, Positive, Count, Closers, Stoppers, Distinct, Find;
    assert forall row :: row in a'.rows ==> row in a.rows || (row.id == id && row.parent.None?);
    assert a'.used == a.used + {id};
  }

  lemma DescribedTable(a: Agent, child: Row)
    requires TableInv(a) && SpawnInv(a) && a.spawn.Created? && child in a.rows && child.id == a.spawn.child
    ensures var row := child.(parent := Some(a.spawn.parent), depth := a.spawn.depth, running := true);
      var rows' := Replaced(a.rows, row);
      && TableInv(a.(rows := rows'))
      && (forall x :: x in rows' ==> x == row || (x in a.rows && x.id != child.id))
      && (NoOrphans(a.rows) ==> (NoOrphans(rows') <==> a.spawn.parent in Ids(a.rows)))
  {
    var row := child.(parent := Some(a.spawn.parent), depth := a.spawn.depth, running := true);
    var rows' := Replaced(a.rows, row);
    var i :| 0 <= i < |a.rows| && a.rows[i] == child;
    DescribeKeepsForest(a.rows, child, a.spawn.parent, a.spawn.depth);
    forall x | x in rows' ensures x == row || (x in a.rows && x.id != child.id) {
      ReplacedMembers(a.rows, row, x);
    }
    hide UniqueIds, DepthInv, NoOrphans, Ids, Replaced;
  }

  lemma DescribedIsCaptured(a: Agent, c: Cancellation, rows: seq<Row>, row: Row)
    requires CapturedInv(a, c) && row.parent.Some? && row.parent.value !in Members(c)
    requires forall x :: x in rows ==> x == row || x in a.rows
    ensures CapturedInv(a.(rows := rows), c)
  {
    hide Distinct, Members;
  }

  lemma DescribeKeepsCaptured(a: Agent, rows: seq<Row>, row: Row)
    requires AllCaptured(a) && row.parent.Some?
    requires forall c :: c in a.outstanding ==> row.parent.value !in Members(c)
    requires forall x :: x in rows ==> x == row || x in a.rows
    ensures AllCaptured(a.(rows := rows, spawn := Described(row.parent.value, row.id)))
  {
    hide CapturedInv, Members;
    forall c | c in a.outstanding ensures CapturedInv(a.(rows := rows, spawn := Described(row.parent.value, row.id)), c) {
      assert CapturedInv(a, c);
      DescribedIsCaptured(a, c, rows, row);
      OnlyRowsMatter(a.(rows := rows), a.(rows := rows, spawn := Described(row.parent.value, row.id)), c);
    }
  }

  lemma DescribeKeeps(a: Agent, a': Agent)
    requires Inv(a) && Next(a, a', DescribeChild)
    ensures Inv(a')
  {
    var child := Find(a.rows, a.spawn.child).value;
    var row := child.(parent := Some(a.spawn.parent), depth := a.spawn.depth, running := true);
    var rows := Replaced(a.rows, row);
    DescribedTable(a, child);
    assert a' == a.(rows := rows, spawn := Described(a.spawn.parent, a.spawn.child));
    assert forall c :: c in a.outstanding ==> a.spawn.parent !in Members(c);
    hide Next, TableInv, Replaced, AllCaptured, Find, Members, CountersInv;
    DescribeKeepsCaptured(a, rows, row);
    OnlyRowsTable(a.(rows := rows), a');
    OnlyRowsCounters(a, a');
  }

  lemma OnlyRowsCounters(a: Agent, a': Agent)
    requires CountersInv(a) && a'.closing == a.closing && a'.stopping == a.stopping && a'.outstanding == a.outstanding
    ensures CountersInv(a')
  {
    hide Positive, Count, Closers, Stoppers;
  }

  lemma OnlyRowsMatter(a: Agent, a': Agent, c: Cancellation)
    requires CapturedInv(a, c) && a' == a.(spawn := a'.spawn)
    ensures CapturedInv(a', c)
  {
    hide Distinct, Members;
  }

  lemma OnlyRowsTable(a: Agent, a': Agent)
    requires TableInv(a) && a' == a.(spawn := a'.spawn)
    ensures TableInv(a')
  {
    hide UniqueIds, DepthInv;
  }

  /** A captured descendant is being stopped, so nothing begins on it. */
  lemma StoppedMember(a: Agent, c: Cancellation, id: nat)
    requires CountersInv(a) && c in a.outstanding && id in c.descendants
    ensures Count(a.stopping, id) > 0
  {
    CountsPositive(a.outstanding, id);
  }

  lemma BeginKeeps(a: Agent, id: nat, spawn: Spawn)
    requires Inv(a) && CanBegin(a, id) && (spawn == a.spawn || spawn.NoSpawn?)
    ensures Inv(Begun(a, id).(spawn := spawn))
  {
    forall c | c in a.outstanding ensures id !in c.descendants {
      if id in c.descendants {
        StoppedMember(a, c, id);
      }
    }
    hide UniqueIds, DepthInv, Positive, Count, Closers, Stoppers, Distinct;
  }

  lemma RegisterKeeps(a: Agent, a': Agent, id: nat)
    requires Inv(a) && Next(a, a', RegisterGeneration(id))
    ensures Inv(a')
  {
    forall c | c in a.outstanding ensures id !in c.descendants {
      if id in c.descendants {
        StoppedMember(a, c, id);
      }
    }
    hide UniqueIds, DepthInv, Positive, Count, Closers, Stoppers, Distinct;
  }

  lemma EndKeeps(a: Agent, activities: map<nat, nat>, generations: map<nat, nat>)
    requires Inv(a)
    requires forall id :: id in activities ==> id in a.activities && activities[id] == a.activities[id]
    requires forall id :: id in generations ==> id in a.generations && generations[id] == a.generations[id]
    ensures Inv(a.(activities := activities, generations := generations))
  {
    hide UniqueIds, DepthInv, Positive, Count, Closers, Stoppers, Distinct;
  }

  lemma StatesKeepCaptured(a: Agent, c: Cancellation, rows: seq<Row>)
    requires CapturedInv(a, c) && OnlyStates(a.rows, rows)
    ensures CapturedInv(a.(rows := rows), c)
  {
    hide Distinct, Members;
    forall row | row in rows && row.parent.Some? && row.parent.value in Members(c) ensures row.id in c.descendants {
      var y :| y in a.rows && SameLineage(row, y);
    }
  }

  lemma StatesKeepSpawn(a: Agent, rows: seq<Row>)
    requires SpawnInv(a) && OnlyStates(a.rows, rows)
    ensures SpawnInv(a.(rows := rows))
  {
    hide Members;
    forall row | row in rows
      ensures exists y :: y in a.rows && y.id == row.id && y.parent == row.parent && y.depth == row.depth
    {
      var y :| y in a.rows && SameLineage(row, y);
    }
  }

  lemma OnlyStatesKeep(a: Agent, rows: seq<Row>)
    requires Inv(a) && OnlyStates(a.rows, rows) && TableInv(a.(rows := rows))
    ensures Inv(a.(rows := rows))
  {
    hide CapturedInv, SpawnInv, OnlyStates, TableInv;
    StatesKeepSpawn(a, rows);
    forall c | c in a.outstanding ensures CapturedInv(a.(rows := rows), c) {
      assert CapturedInv(a, c);
      StatesKeepCaptured(a, c, rows);
    }
    hide Count, Closers, Stoppers, Positive;
  }

  lemma SetStateKeeps(a: Agent, a': Agent, id: nat, running: bool, generating: bool)
    requires Inv(a) && Next(a, a', SetState(id, running, generating))
    ensures Inv(a')
  {
    assert TableInv(a);
    StateSet(a, id, running, generating);
    assert a' == a.(rows := a'.rows) && OnlyStates(a.rows, a'.rows) && TableInv(a');
    hide *;
    OnlyStatesKeep(a, a'.rows);
  }

  lemma DeleteKeeps(a: Agent, a': Agent, root: nat)
    requires Inv(a) && Next(a, a', DeleteTree(root))
    ensures Inv(a') && (NoOrphans(a.rows) ==> NoOrphans(a'.rows))
  {
    var deleted :| IsClosure(a.rows, root, deleted) && a' == a.(rows := Surviving(a.rows, deleted));
    DeletedTable(a, root, deleted);
    DeleteKeepsForest(a.rows, root, deleted);
    hide UniqueIds, DepthInv, NoOrphans, Positive, Count, Closers, Stoppers, Distinct, Find, Surviving, Descends;
  }

  lemma PreparedIsCaptured(a: Agent, c: Cancellation)
    requires TableInv(a) && c.root in a.used && Distinct(c.descendants)
    requires forall id :: id in c.descendants <==> Descends(a.rows, c.root, id)
    requires c.activityDone == Held(a.activities, c.descendants) && c.generationDone == Held(a.generations, c.descendants)
    ensures CapturedInv(a, c)
  {
    NoCycles(a.rows, c.root);
    forall row | row in a.rows && row.parent.Some? && row.parent.value in Members(c) ensures row.id in c.descendants {
      RowDescends(a.rows, c.root, row);
    }
    forall id | id in c.descendants ensures id in a.used {
      var k: nat :| k > 0 && Up(a.rows, id, k) == Some(c.root);
      StartsAtParent(a.rows, id, k);
      assert Find(a.rows, id).value in a.rows;
    }
  }

  lemma PrepareKeeps(a: Agent, a': Agent, root: nat, descendants: seq<nat>)
    requires Inv(a) && Next(a, a', Prepare(root, descendants))
    ensures Inv(a')
  {
    var c := Cancellation(root, descendants, Held(a.activities, descendants), Held(a.generations, descendants));
    PreparedIsCaptured(a, c);
    PrepareCounts(a, c);
    hide UniqueIds, DepthInv, Positive, Count, Closers, Stoppers, Distinct, Held, Descends, Raised;
  }

  lemma ReleaseKeeps(a: Agent, a': Agent, index: nat)
    requires Inv(a) && Next(a, a', Release(index))
    ensures Inv(a')
  {
    assert CapturedInv(a, a.outstanding[index]);
    ReleaseCounts(a, index);
    hide UniqueIds, DepthInv, Positive, Count, Closers, Stoppers, Distinct, Lowered;
    assert forall c :: c in a'.outstanding ==> c in a.outstanding;
  }

  lemma NextKeepsInv(a: Agent, a': Agent, act: Action)
    requires Inv(a) && Next(a, a', act)
    ensures Inv(a')
  {
    match act
    case CreateRoot(id) => hide *; CreateRootKeeps(a, a', id);
    case Admit(parent) => hide *; AdmitKeeps(a, a', parent);
    case CreateChild(id) => hide *; CreateChildKeeps(a, a', id);
    case DescribeChild => hide *; DescribeKeeps(a, a');
    case StartChild =>
      assert a' == Begun(a, a.spawn.child).(spawn := NoSpawn) && CanBegin(a, a.spawn.child);
      hide *;
      BeginKeeps(a, a.spawn.child, NoSpawn);
    case AbandonSpawn => hide CountersInv, TableInv;
    case BeginDriver(id) =>
      assert a' == Begun(a, id).(spawn := a.spawn) && CanBegin(a, id);
      hide *;
      BeginKeeps(a, id, a.spawn);
    case FinishDriver(id) => hide Inv; EndKeeps(a, a'.activities, a.generations);
    case RegisterGeneration(id) => hide *; RegisterKeeps(a, a', id);
    case EndGeneration(id) => hide Inv; EndKeeps(a, a.activities, a'.generations);
    case SetState(id, running, generating) => hide *; SetStateKeeps(a, a', id, running, generating);
    case DeleteTree(root) => hide *; DeleteKeeps(a, a', root);
    case Prepare(root, descendants) => hide *; PrepareKeeps(a, a', root, descendants);
    case Release(index) => hide *; ReleaseKeeps(a, a', index);
  }

  lemma {:induction false} BehaviorKeepsInv(tr: seq<Agent>, actions: seq<Action>, i: nat)
    requires Behavior(tr, actions) && i < |tr|
    ensures Inv(tr[i])
  {
    if i > 0 {
      BehaviorKeepsInv(tr, actions, i - 1);
      NextKeepsInv(tr[i - 1], tr[i], actions[i - 1]);
    }
  }

  // ----- what the cutoff guarantees -----

  /** Each counter is the number of outstanding cancellations naming the id, and
    * both maps are empty once every cancellation is released. */
  lemma CountersAreOutstanding(tr: seq<Agent>, actions: seq<Action>, i: nat)
    requires Behavior(tr, actions) && i < |tr|
    ensures forall id :: Count(tr[i].closing, id) == Closers(tr[i].outstanding, id)
    ensures forall id :: Count(tr[i].stopping, id) == Stoppers(tr[i].outstanding, id)
    ensures tr[i].outstanding == [] ==> tr[i].closing == map[] && tr[i].stopping == map[]
  {
    BehaviorKeepsInv(tr, actions, i);
    if tr[i].outstanding == [] {
      AllZero(tr[i].closing);
      AllZero(tr[i].stopping);
    }
  }

  lemma AllZero(counters: map<nat, nat>)
    requires Positive(counters) && forall id :: Count(counters, id) == 0
    ensures counters == map[]
  {
    forall id ensures id !in counters {
      assert Count(counters, id) == 0;
    }
  }

  /** From preparation to release the captured set stays complete: whatever
    * descends from the root, now, was captured. */
  lemma CapturedStaysComplete(tr: seq<Agent>, actions: seq<Action>, i: nat, c: Cancellation, id: nat)
    requires Behavior(tr, actions) && i < |tr| && c in tr[i].outstanding && Descends(tr[i].rows, c.root, id)
    ensures id in c.descendants
  {
    BehaviorKeepsInv(tr, actions, i);
    var a := tr[i];
    assert CapturedInv(a, c);
    DescendantIsCaptured(a, c, id);
  }

  lemma DescendantIsCaptured(a: Agent, c: Cancellation, id: nat)
    requires TableInv(a) && CapturedInv(a, c) && Descends(a.rows, c.root, id)
    ensures id in c.descendants
  {
    var members := set x | x in Members(c);
    NoCycles(a.rows, c.root);
    forall x | ParentOf(a.rows, x).Some? && ParentOf(a.rows, x).value in members ensures x in members {
      assert Find(a.rows, x).value in a.rows;
    }
    var k: nat :| k > 0 && Up(a.rows, id, k) == Some(c.root);
    ClosedSetHolds(a.rows, c.root, id, k, members);
  }

  /** While a cancellation is outstanding no spawn is admitted under, or
    * described under, any of its members, and no driver or generation begins on
    * a captured descendant. */
  lemma CutoffHolds(tr: seq<Agent>, actions: seq<Action>, i: nat, c: Cancellation)
    requires Behavior(tr, actions) && i < |actions| && c in tr[i].outstanding
    ensures actions[i].Admit? ==> actions[i].parent !in Members(c)
    ensures actions[i].DescribeChild? ==> tr[i].spawn.Created? && tr[i].spawn.parent !in Members(c)
    ensures actions[i].StartChild? ==> tr[i].spawn.Described? && tr[i].spawn.child !in c.descendants
    ensures actions[i].BeginDriver? || actions[i].RegisterGeneration? ==> actions[i].id !in c.descendants
  {
    BehaviorKeepsInv(tr, actions, i);
    var a, act := tr[i], actions[i];
    assert Next(a, tr[i + 1], act);
    forall id
      ensures id in Members(c) ==> Count(a.closing, id) > 0
      ensures id in c.descendants ==> Count(a.stopping, id) > 0
    {
      CountsPositive(a.outstanding, id);
    }
  }

  /** At release nothing runs below the root any more: not only what was captured
    * has finished, there is no driver and no generation on any descendant. */
  lemma ReleaseIsQuiet(tr: seq<Agent>, actions: seq<Action>, i: nat)
    requires Behavior(tr, actions) && i < |actions| && actions[i].Release?
    ensures actions[i].index < |tr[i].outstanding|
    ensures var c := tr[i].outstanding[actions[i].index];
      forall id :: id in c.descendants || Descends(tr[i].rows, c.root, id) ==>
        id !in tr[i].activities && id !in tr[i].generations
  {
    BehaviorKeepsInv(tr, actions, i);
    var a := tr[i];
    assert Next(a, tr[i + 1], actions[i]);
    var c := a.outstanding[actions[i].index];
    assert CapturedInv(a, c);
    forall id | Descends(a.rows, c.root, id) ensures id in c.descendants {
      DescendantIsCaptured(a, c, id);
    }
  }

  /** The lineage stays a table of depth at most three without cycles. */
  lemma LineageIsBounded(tr: seq<Agent>, actions: seq<Action>, i: nat)
    requires Behavior(tr, actions) && i < |tr|
    ensures UniqueIds(tr[i].rows) && DepthInv(tr[i].rows) && forall id :: !Descends(tr[i].rows, id, id)
  {
    BehaviorKeepsInv(tr, actions, i);
    forall id ensures !Descends(tr[i].rows, id, id) {
      NoCycles(tr[i].rows, id);
    }
  }

  /** A step keeps every parent in place exactly when it does not describe a
    * child whose parent was deleted in the meantime. */
  lemma StepOrphansIff(tr: seq<Agent>, actions: seq<Action>, i: nat)
    requires Behavior(tr, actions) && i < |actions| && NoOrphans(tr[i].rows)
    ensures NoOrphans(tr[i + 1].rows) <==>
      !(actions[i].DescribeChild? && tr[i].spawn.Created? && tr[i].spawn.parent !in Ids(tr[i].rows))
  {
    BehaviorKeepsInv(tr, actions, i);
    var a, a', act := tr[i], tr[i + 1], actions[i];
    assert Next(a, a', act);
    match act
    case DescribeChild =>
      DescribedTable(a, Find(a.rows, a.spawn.child).value);
    case DeleteTree(root) => DeleteKeeps(a, a', root);
    case SetState(id, running, generating) =>
      StateSet(a, id, running, generating);
      hide Replaced, Find;
      StatesKeepParents(a.rows, a'.rows, id);
    case CreateRoot(id) => RootsKeepParents(a.rows, id);
    case CreateChild(id) => RootsKeepParents(a.rows, id);
    case _ =>
  }

  lemma RootsKeepParents(rows: seq<Row>, id: nat)
    requires NoOrphans(rows)
    ensures NoOrphans(rows + [Row(id, None, 0, false, false)])
  {
    var rows' := rows + [Row(id, None, 0, false, false)];
    forall row | row in rows' && row.parent.Some? ensures row.parent.value in Ids(rows') {
      var parent :| parent in rows && parent.id == row.parent.value;
      assert parent in rows';
    }
  }

  lemma StatesKeepParents(rows: seq<Row>, rows': seq<Row>, id: nat)
    requires NoOrphans(rows) && OnlyStates(rows, rows') && Ids(rows) <= Ids(rows')
    ensures NoOrphans(rows')
  {
    forall row | row in rows' && row.parent.Some? ensures row.parent.value in Ids(rows') {
      var y :| y in rows && SameLineage(row, y);
      assert y.parent.value in Ids(rows);
    }
  }

  // ----- a child whose parent is deleted during its spawn -----

  const PARENT: Row := Row(0, None, 0, false, false)
  const BUSY_PARENT: Row := PARENT.(generating := true)
  const CHILD: Row := Row(1, None, 0, false, false)
  const DESCRIBED_CHILD: Row := Row(1, Some(0), 1, true, false)

  function OrphaningState(i: nat): Agent {
    if i == 0 then INITIAL
    else if i == 1 then INITIAL.(rows := [PARENT], used := {0})
    else if i == 2 then INITIAL.(rows := [BUSY_PARENT], used := {0})
    else if i == 3 then INITIAL.(rows := [BUSY_PARENT], used := {0}, spawn := Admitted(0, 1))
    else if i == 4 then INITIAL.(rows := [BUSY_PARENT, CHILD], used := {0, 1}, spawn := Created(0, 1, 1))
    else if i == 5 then INITIAL.(rows := [PARENT, CHILD], used := {0, 1}, spawn := Created(0, 1, 1))
    else if i == 6 then INITIAL.(rows := [CHILD], used := {0, 1}, spawn := Created(0, 1, 1))
    else INITIAL.(rows := [DESCRIBED_CHILD], used := {0, 1}, spawn := Described(0, 1))
  }

  const ORPHANING_ACTIONS: seq<Action> :=
    [CreateRoot(0), SetState(0, false, true), Admit(0), CreateChild(1), SetState(0, false, false), DeleteTree(0),
     DescribeChild]

  lemma RootsHaveNoDescendants(rows: seq<Row>, root: nat)
    requires forall row :: row in rows ==> row.parent.None?
    ensures IsClosure(rows, root, {root})
  {
    forall id ensures !Descends(rows, root, id) {
      forall k: nat | k > 0 ensures Up(rows, id, k) != Some(root) {
        assert Up(rows, id, k - 1).Some? ==> ParentOf(rows, Up(rows, id, k - 1).value).None?;
      }
    }
  }

  lemma OrphaningDelete()
    ensures Next(OrphaningState(5), OrphaningState(6), DeleteTree(0))
  {
    var rows := [PARENT, CHILD];
    RootsHaveNoDescendants(rows, 0);
    assert rows[1..] == [CHILD] && rows[1..][1..] == [];
    assert Surviving([], {0}) == [] && Surviving([CHILD], {0}) == [CHILD] + Surviving([CHILD][1..], {0});
    assert Surviving(rows, {0}) == [] + Surviving(rows[1..], {0}) == [CHILD];
    assert Has(rows, 0) by { assert rows[0].id == 0; }
    hide IsClosure, Surviving;
  }

  lemma OrphaningStep(i: nat)
    requires i < 7
    ensures Next(OrphaningState(i), OrphaningState(i + 1), ORPHANING_ACTIONS[i])
  {
    var rows := OrphaningState(i).rows;
    if i == 1 || i == 4 {
      assert Has(rows, 0) by { assert rows[0].id == 0; }
      assert Replaced(rows, OrphaningState(i + 1).rows[0]) == OrphaningState(i + 1).rows;
    } else if i == 2 {
      assert rows[1..] == [];
      assert Find(rows, 0) == Some(BUSY_PARENT) && ActiveChildren(rows, 0) == [];
    } else if i == 5 {
      OrphaningDelete();
    } else if i == 6 {
      assert Has(rows, 1) by { assert rows[0].id == 1; }
      assert Replaced(rows, DESCRIBED_CHILD) == [DESCRIBED_CHILD];
    } else {
      assert OrphaningState(i + 1).rows == rows + [if i == 0 then PARENT else CHILD];
    }
  }

  /** That can happen: the parent is admitted to spawn, its child is created, and
    * before the child is described the parent's generation ends and the parent is
    * deleted.  The last step leaves a child with a parent that is gone. */
  lemma ParentCanBeDeletedMidSpawn() returns (tr: seq<Agent>, actions: seq<Action>)
    ensures Behavior(tr, actions) && |actions| > 0 && actions[|actions| - 1].DescribeChild?
    ensures NoOrphans(tr[|actions| - 1].rows) && !NoOrphans(tr[|actions|].rows)
  {
    tr, actions := seq(8, i requires 0 <= i < 8 => OrphaningState(i)), ORPHANING_ACTIONS;
    hide Next;
    forall i | 0 <= i < |actions| ensures Next(tr[i], tr[i + 1], actions[i]) {
      OrphaningStep(i);
    }
    assert DESCRIBED_CHILD in tr[7].rows && 0 !in Ids(tr[7].rows);
  }
}
