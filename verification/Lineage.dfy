/** The subagent lineage: conversations that name a parent, the walks over them,
  * and the admission rule that keeps them a forest of bounded depth.
  */
module SubagentLineage {
  import opened Wrappers

  const MAXIMUM_DEPTH: nat := 3
  const MAXIMUM_ACTIVE_CHILDREN: nat := 3

  /** A conversation row; only a subagent has a parent and a positive depth. */
  datatype Row = Row(id: nat, parent: Option<nat>, depth: nat, running: bool, generating: bool)

  datatype WalkError = LineageCycle | NotFound

  // ----- the relation -----

  predicate Has(rows: seq<Row>, id: nat) {
    exists i :: 0 <= i < |rows| && rows[i].id == id
  }

  ghost predicate UniqueIds(rows: seq<Row>) {
    forall i, j :: 0 <= i < j < |rows| ==> rows[i].id != rows[j].id
  }

  function Find(rows: seq<Row>, id: nat): (r: Option<Row>)
    ensures r.Some? <==> Has(rows, id)
    ensures r.Some? ==> r.value in rows && r.value.id == id
  {
    if rows == [] then None
    else if rows[0].id == id then Some(rows[0])
    else
      var r := Find(rows[1..], id);
      assert Has(rows[1..], id) ==> Has(rows, id) by {
        if Has(rows[1..], id) {
          var i :| 0 <= i < |rows[1..]| && rows[1..][i].id == id;
          assert rows[i + 1].id == id;
        }
      }
      assert Has(rows, id) ==> Has(rows[1..], id) by {
        if Has(rows, id) {
          var i :| 0 <= i < |rows| && rows[i].id == id;
          assert rows[1..][i - 1].id == id;
        }
      }
      r
  }

  function ParentOf(rows: seq<Row>, id: nat): Option<nat> {
    var r := Find(rows, id);
    if r.Some? then r.value.parent else None
  }

  /** The k-th ancestor. */
  function Up(rows: seq<Row>, id: nat, k: nat): Option<nat>
    decreases k
  {
    if k == 0 then Some(id)
    else
      var below := Up(rows, id, k - 1);
      if below.None? then None else ParentOf(rows, below.value)
  }

  ghost predicate Descends(rows: seq<Row>, ancestor: nat, id: nat) {
    exists k: nat :: k > 0 && Up(rows, id, k) == Some(ancestor)
  }

  /** The rows that name the parent, in the order the query returns them. */
  function Children(rows: seq<Row>, parent: nat): seq<nat> {
    if rows == [] then []
    else (if rows[0].parent == Some(parent) then [rows[0].id] else []) + Children(rows[1..], parent)
  }

  lemma FindUnique(rows: seq<Row>, row: Row)
    requires UniqueIds(rows) && row in rows
    ensures Find(rows, row.id) == Some(row)
  {
    var found := Find(rows, row.id);
    var i :| 0 <= i < |rows| && rows[i] == row;
    assert Has(rows, row.id);
    var j :| 0 <= j < |rows| && rows[j] == found.value;
  }

  lemma {:induction false} ChildrenMembers(rows: seq<Row>, parent: nat, id: nat)
    ensures id in Children(rows, parent) <==> exists row :: row in rows && row.id == id && row.parent == Some(parent)
  {
    if rows != [] {
      ChildrenMembers(rows[1..], parent, id);
      assert rows == [rows[0]] + rows[1..];
    }
  }

  /** In a table, the children of a parent are the rows one step below it. */
  lemma ChildrenAreBelow(rows: seq<Row>, parent: nat, id: nat)
    requires UniqueIds(rows)
    ensures id in Children(rows, parent) <==> ParentOf(rows, id) == Some(parent)
  {
    ChildrenMembers(rows, parent, id);
    if id in Children(rows, parent) {
      var row :| row in rows && row.id == id && row.parent == Some(parent);
      FindUnique(rows, row);
    }
  }

  lemma {:induction false} ChildrenDistinct(rows: seq<Row>, parent: nat)
    requires UniqueIds(rows)
    ensures forall i, j :: 0 <= i < j < |Children(rows, parent)| ==> Children(rows, parent)[i] != Children(rows, parent)[j]
  {
    if rows != [] {
      var rest := Children(rows[1..], parent);
      ChildrenDistinct(rows[1..], parent);
      forall i | 0 <= i < |rest| ensures rest[i] != rows[0].id {
        ChildrenMembers(rows[1..], parent, rest[i]);
      }
    }
  }

  lemma OneStepDown(rows: seq<Row>, ancestor: nat, parent: nat, id: nat)
    requires ParentOf(rows, id) == Some(parent) && (parent == ancestor || Descends(rows, ancestor, parent))
    ensures Descends(rows, ancestor, id)
  {
    if parent == ancestor {
      assert Up(rows, id, 0) == Some(id);
      assert Up(rows, id, 1) == Some(ancestor);
    } else {
      var k: nat :| k > 0 && Up(rows, parent, k) == Some(ancestor);
      UpFromParent(rows, id, parent, k);
    }
  }

  lemma {:induction false} UpFromParent(rows: seq<Row>, id: nat, parent: nat, k: nat)
    requires ParentOf(rows, id) == Some(parent)
    ensures Up(rows, id, k + 1) == Up(rows, parent, k)
  {
    if k == 0 {
      assert Up(rows, id, 0) == Some(id);
    } else {
      UpFromParent(rows, id, parent, k - 1);
    }
  }

  /** A set closed under children that holds the ancestor holds its descendants. */
  lemma {:induction false} ClosedSetHolds(rows: seq<Row>, ancestor: nat, id: nat, k: nat, members: set<nat>)
    requires ancestor in members && Up(rows, id, k) == Some(ancestor)
    requires forall x :: ParentOf(rows, x).Some? && ParentOf(rows, x).value in members ==> x in members
    ensures id in members
    decreases k
  {
    if k > 0 {
      var parent := ParentOf(rows, id);
      StartsAtParent(rows, id, k);
      UpFromParent(rows, id, parent.value, k - 1);
      ClosedSetHolds(rows, ancestor, parent.value, k - 1, members);
    }
  }

  lemma {:induction false} StartsAtParent(rows: seq<Row>, id: nat, k: nat)
    requires k > 0 && Up(rows, id, k).Some?
    ensures ParentOf(rows, id).Some?
  {
    if k == 1 {
      assert Up(rows, id, 0) == Some(id);
    } else {
      StartsAtParent(rows, id, k - 1);
    }
  }

  // ----- the breadth-first walk -----

  ghost predicate Distinct(ids: seq<nat>) {
    forall i, j :: 0 <= i < j < |ids| ==> ids[i] != ids[j]
  }

  function Ids(rows: seq<Row>): set<nat> {
    set row | row in rows :: row.id
  }

  /** The seen rows, the start and the result, are split into the expanded ones
    * and the frontier still to expand. */
  ghost predicate FrontierInv(start: nat, result: seq<nat>, frontier: seq<nat>, expanded: set<nat>) {
    && start !in result && Distinct(result) && Distinct(frontier)
    && (forall id :: id in frontier || id in expanded <==> id == start || id in result)
    && (forall id :: id in frontier ==> id !in expanded)
  }

  ghost predicate ResultInv(rows: seq<Row>, start: nat, result: seq<nat>, expanded: set<nat>) {
    && expanded <= Ids(rows) + {start}
    && forall id :: id in result ==>
         id in Ids(rows) && ParentOf(rows, id).Some? && ParentOf(rows, id).value in expanded && Descends(rows, start, id)
  }

  ghost predicate ClosureInv(rows: seq<Row>, result: seq<nat>, expanded: set<nat>) {
    forall id :: ParentOf(rows, id).Some? && ParentOf(rows, id).value in expanded ==> id in result
  }

  ghost predicate WalkInv(rows: seq<Row>, start: nat, result: seq<nat>, frontier: seq<nat>, expanded: set<nat>) {
    && FrontierInv(start, result, frontier, expanded) && ResultInv(rows, start, result, expanded)
    && ClosureInv(rows, result, expanded)
  }

  lemma ChildIsNew(rows: seq<Row>, start: nat, result: seq<nat>, frontier: seq<nat>, expanded: set<nat>, id: nat)
    requires WalkInv(rows, start, result, frontier, expanded) && frontier != []
    requires ParentOf(rows, id) == Some(frontier[0])
    ensures id !in result && Descends(rows, start, id)
  {
    assert frontier[0] in frontier;
    OneStepDown(rows, start, frontier[0], id);
  }

  lemma FrontierMoves(start: nat, result: seq<nat>, frontier: seq<nat>, expanded: set<nat>, children: seq<nat>)
    requires FrontierInv(start, result, frontier, expanded) && frontier != [] && Distinct(children)
    requires forall id :: id in children ==> id !in result && id != start
    ensures FrontierInv(start, result + children, frontier[1..] + children, expanded + {frontier[0]})
  {
    assert frontier == [frontier[0]] + frontier[1..];
    DistinctJoin(result, children);
    DistinctTail(frontier);
    DistinctJoin(frontier[1..], children);
    hide Distinct;
    assert forall id :: id in frontier <==> id == frontier[0] || id in frontier[1..];
  }

  lemma Expanded(rows: seq<Row>, start: nat, result: seq<nat>, frontier: seq<nat>, expanded: set<nat>)
    requires UniqueIds(rows) && WalkInv(rows, start, result, frontier, expanded) && frontier != []
    requires ParentOf(rows, start) != Some(frontier[0])
    ensures var children := Children(rows, frontier[0]);
      WalkInv(rows, start, result + children, frontier[1..] + children, expanded + {frontier[0]})
  {
    var parent, children := frontier[0], Children(rows, frontier[0]);
    ChildrenDistinct(rows, parent);
    assert parent in frontier;
    forall id ensures id in children <==> ParentOf(rows, id) == Some(parent)
              ensures id in children ==> id !in result && id != start && id in Ids(rows) && Descends(rows, start, id)
    {
      ChildrenAreBelow(rows, parent, id);
      if id in children {
        ChildIsNew(rows, start, result, frontier, expanded, id);
      }
    }
    assert parent in Ids(rows) + {start};
    hide Children, ParentOf, Descends, UniqueIds, Ids, FrontierInv;
    FrontierMoves(start, result, frontier, expanded, children);
  }

  lemma DistinctJoin(a: seq<nat>, b: seq<nat>)
    requires Distinct(a) && Distinct(b) && forall x :: x in b ==> x !in a
    ensures Distinct(a + b)
  {
    forall i, j | 0 <= i < j < |a + b| ensures (a + b)[i] != (a + b)[j] {
      if i < |a| <= j {
        assert b[j - |a|] in b && a[i] in a;
      }
    }
  }

  lemma DistinctTail(ids: seq<nat>)
    requires ids != [] && Distinct(ids)
    ensures Distinct(ids[1..]) && ids[0] !in ids[1..]
  {
  }

  lemma {:induction false} SubsetSize(a: set<nat>, b: set<nat>)
    requires a <= b
    ensures |a| <= |b|
  {
    if a != {} {
      var x :| x in a;
      SubsetSize(a - {x}, b - {x});
    }
  }

  lemma WalkIsComplete(rows: seq<Row>, start: nat, result: seq<nat>, expanded: set<nat>)
    requires WalkInv(rows, start, result, [], expanded)
    ensures start !in result && Distinct(result)
    ensures forall id :: Descends(rows, start, id) <==> id in result
  {
    hide FrontierInv, Ids;
    assert forall id :: id in result ==> Descends(rows, start, id);
    FrontierEmpty(start, result, expanded);
    forall id | Descends(rows, start, id) ensures id in result {
      var k: nat :| k > 0 && Up(rows, id, k) == Some(start);
      hide ClosureInv, ResultInv, Up;
      ClosedWalkHolds(rows, start, id, k, result, expanded);
    }
  }

  lemma ClosedWalkHolds(rows: seq<Row>, start: nat, id: nat, k: nat, result: seq<nat>, expanded: set<nat>)
    requires ClosureInv(rows, result, expanded) && start in expanded && forall x :: x in result ==> x in expanded
    requires k > 0 && Up(rows, id, k) == Some(start)
    ensures id in result
  {
    StartsAtParent(rows, id, k);
    hide Up, ParentOf;
    var parent := ParentOf(rows, id).value;
    UpFromParent(rows, id, parent, k - 1);
    ClosedSetHolds(rows, start, parent, k - 1, expanded);
  }

  lemma FrontierEmpty(start: nat, result: seq<nat>, expanded: set<nat>)
    requires FrontierInv(start, result, [], expanded)
    ensures start in expanded && start !in result && Distinct(result) && forall id :: id in result ==> id in expanded
  {
    hide Distinct;
  }

  /** The inner loop of one expansion: the children join the result and the
    * frontier, unless one of them was seen before. */
  method Expand(children: seq<nat>, result: seq<nat>, frontier: seq<nat>, seen: set<nat>)
    returns (cycle: bool, result': seq<nat>, frontier': seq<nat>, seen': set<nat>)
    requires Distinct(children)
    ensures cycle <==> exists id :: id in children && id in seen
    ensures !cycle ==> result' == result + children && frontier' == frontier + children
    ensures !cycle ==> forall id :: id in seen' <==> id in seen || id in children
  {
    result', frontier', seen' := result, frontier, seen;
    for index := 0 to |children|
      invariant result' == result + children[..index] && frontier' == frontier + children[..index]
      invariant forall id :: id in seen' <==> id in seen || id in children[..index]
      invariant forall k :: 0 <= k < index ==> children[k] !in seen
    {
      var child := children[index];
      assert child in children;
      NotEarlier(children, index);
      if child in seen' {
        return true, result', frontier', seen';
      }
      seen' := seen' + {child};
      result' := result' + [child];
      frontier' := frontier' + [child];
    }
    assert children[..|children|] == children;
    cycle := false;
  }

  lemma NotEarlier(ids: seq<nat>, i: nat)
    requires Distinct(ids) && i < |ids|
    ensures ids[i] !in ids[..i]
  {
  }

  lemma ChildrenAreNew(rows: seq<Row>, start: nat, result: seq<nat>, frontier: seq<nat>, expanded: set<nat>)
    requires UniqueIds(rows) && WalkInv(rows, start, result, frontier, expanded) && frontier != []
    ensures Distinct(Children(rows, frontier[0]))
    ensures forall id :: id in Children(rows, frontier[0]) ==> id !in result && Descends(rows, start, id)
    ensures start in Children(rows, frontier[0]) <==> ParentOf(rows, start) == Some(frontier[0])
  {
    ChildrenDistinct(rows, frontier[0]);
    ChildrenAreBelow(rows, frontier[0], start);
    forall id | id in Children(rows, frontier[0]) ensures id !in result && Descends(rows, start, id) {
      ChildrenAreBelow(rows, frontier[0], id);
      ChildIsNew(rows, start, result, frontier, expanded, id);
    }
  }

  lemma WalkStarts(rows: seq<Row>, start: nat)
    ensures WalkInv(rows, start, [], [start], {})
  {
  }

  lemma WalkProgresses(rows: seq<Row>, start: nat, result: seq<nat>, frontier: seq<nat>, expanded: set<nat>)
    requires WalkInv(rows, start, result, frontier, expanded) && frontier != []
    ensures |expanded + {frontier[0]}| == |expanded| + 1 <= |Ids(rows) + {start}|
  {
    assert frontier[0] in frontier;
    SubsetSize(expanded + {frontier[0]}, Ids(rows) + {start});
  }

  /** Lists every descendant once, parents before children.  The cycle error is
    * reported exactly when the start descends from itself. */
  method ListDescendants(rows: seq<Row>, start: nat) returns (r: Result<seq<nat>, WalkError>)
    requires UniqueIds(rows)
    ensures r.Err? <==> Descends(rows, start, start)
    ensures r.Err? ==> r.error == LineageCycle
    ensures r.Ok? ==> Distinct(r.value) && forall id :: id in r.value <==> Descends(rows, start, id)
  {
    hide *;
    var result: seq<nat>, frontier, seen := [], [start], {start};
    ghost var expanded: set<nat> := {};
    WalkStarts(rows, start);
    while |frontier| > 0
      invariant WalkInv(rows, start, result, frontier, expanded)
      invariant forall id :: id in seen <==> id == start || id in result
      decreases |Ids(rows) + {start}| - |expanded|
    {
      var parent := frontier[0];
      var children := Children(rows, parent);
      ChildrenAreNew(rows, start, result, frontier, expanded);
      WalkProgresses(rows, start, result, frontier, expanded);
      var cycle, result', frontier', seen' := Expand(children, result, frontier[1..], seen);
      if cycle {
        return Err(LineageCycle);
      }
      Expanded(rows, start, result, frontier, expanded);
      expanded := expanded + {parent};
      result, frontier, seen := result', frontier', seen';
    }
    assert frontier == [];
    WalkIsComplete(rows, start, result, expanded);
    r := Ok(result);
  }

  // ----- the delete fixpoint -----

  /** One pass over the table: whatever names a deleted parent is deleted too. */
  method DeletePass(rows: seq<Row>, root: nat, deleted: seq<nat>) returns (changed: bool, deleted': seq<nat>)
    requires UniqueIds(rows) && root in deleted && Distinct(deleted)
    requires forall id :: id in deleted ==> id == root || Descends(rows, root, id)
    ensures Distinct(deleted') && deleted <= deleted' && (changed <==> |deleted'| > |deleted|)
    ensures forall id :: id in deleted' ==> id == root || Descends(rows, root, id)
    ensures forall id :: id in deleted' ==> id in deleted || id in Ids(rows)
    ensures !changed ==>
      && deleted' == deleted
      && forall row :: row in rows && row.parent.Some? && row.parent.value in deleted ==> row.id in deleted
  {
    changed, deleted' := false, deleted;
    for index := 0 to |rows|
      invariant Distinct(deleted') && deleted <= deleted' && (changed <==> |deleted'| > |deleted|)
      invariant forall id :: id in deleted' ==> id == root || Descends(rows, root, id)
      invariant forall id :: id in deleted' ==> id in deleted || id in Ids(rows)
      invariant !changed ==> forall i :: 0 <= i < index && rows[i].parent.Some? && rows[i].parent.value in deleted ==>
        rows[i].id in deleted
    {
      var candidate := rows[index];
      if candidate.parent.None? || candidate.parent.value !in deleted' || candidate.id in deleted' {
        continue;
      }
      RowDescends(rows, root, candidate);
      hide Descends, UniqueIds;
      DistinctJoin(deleted', [candidate.id]);
      assert candidate in rows;
      deleted' := deleted' + [candidate.id];
      changed := true;
    }
  }

  lemma RowDescends(rows: seq<Row>, root: nat, row: Row)
    requires UniqueIds(rows) && row in rows && row.parent.Some?
    ensures ParentOf(rows, row.id) == row.parent
    ensures row.parent.value == root || Descends(rows, root, row.parent.value) ==> Descends(rows, root, row.id)
  {
    FindUnique(rows, row);
    if row.parent.value == root || Descends(rows, root, row.parent.value) {
      OneStepDown(rows, root, row.parent.value, row.id);
    }
  }

  /** The loop removes exactly the root and its descendants. */
  method DeleteClosure(rows: seq<Row>, root: nat) returns (deleted: seq<nat>)
    requires UniqueIds(rows)
    ensures Distinct(deleted) && deleted != [] && deleted[0] == root
    ensures forall id :: id in deleted <==> id == root || Descends(rows, root, id)
  {
    deleted := [root];
    var changed := true;
    while changed
      invariant Distinct(deleted) && deleted != [] && deleted[0] == root
      invariant forall id :: id in deleted ==> id == root || Descends(rows, root, id)
      invariant forall id :: id in deleted ==> id in Ids(rows) + {root}
      invariant !changed ==>
        forall row :: row in rows && row.parent.Some? && row.parent.value in deleted ==> row.id in deleted
      decreases |Ids(rows) + {root}| - |deleted|, if changed then 1 else 0
    {
      var before := deleted;
      changed, deleted := DeletePass(rows, root, deleted);
      DistinctSize(deleted, Ids(rows) + {root});
      assert deleted[0] == before[0];
    }
    ClosureIsWhole(rows, root, deleted);
  }

  lemma {:induction false} DistinctSize(ids: seq<nat>, all: set<nat>)
    requires Distinct(ids) && forall id :: id in ids ==> id in all
    ensures |ids| <= |all|
  {
    if ids != [] {
      DistinctTail(ids);
      DistinctSize(ids[1..], all - {ids[0]});
    }
  }

  lemma ClosureIsWhole(rows: seq<Row>, root: nat, deleted: seq<nat>)
    requires root in deleted
    requires forall row :: row in rows && row.parent.Some? && row.parent.value in deleted ==> row.id in deleted
    ensures forall id :: Descends(rows, root, id) ==> id in deleted
  {
    var members := set id | id in deleted;
    forall id | Descends(rows, root, id) ensures id in deleted {
      var k: nat :| k > 0 && Up(rows, id, k) == Some(root);
      hide Up;
      ClosedSetHolds(rows, root, id, k, members);
    }
  }

  /** The rows a delete leaves behind. */
  function Surviving(rows: seq<Row>, deleted: set<nat>): seq<Row> {
    if rows == [] then []
    else (if rows[0].id in deleted then [] else [rows[0]]) + Surviving(rows[1..], deleted)
  }

  // ----- the forest -----

  /** Every parent exists. */
  ghost predicate NoOrphans(rows: seq<Row>) {
    forall row :: row in rows && row.parent.Some? ==> row.parent.value in Ids(rows)
  }

  /** Depths grow by one per level and stay within the bound, whether or not a
    * parent still exists. */
  ghost predicate DepthInv(rows: seq<Row>) {
    && (forall row :: row in rows ==> (row.parent.None? <==> row.depth == 0) && row.depth <= MAXIMUM_DEPTH)
    && (forall row, parent :: row in rows && parent in rows && row.parent == Some(parent.id) ==> row.depth == parent.depth + 1)
  }

  ghost predicate Forest(rows: seq<Row>) {
    UniqueIds(rows) && DepthInv(rows) && NoOrphans(rows)
  }

  lemma {:induction false} SurvivingMembers(rows: seq<Row>, deleted: set<nat>, row: Row)
    ensures row in Surviving(rows, deleted) <==> row in rows && row.id !in deleted
  {
    if rows != [] {
      SurvivingMembers(rows[1..], deleted, row);
      assert rows == [rows[0]] + rows[1..];
    }
  }

  lemma {:induction false} SurvivingUnique(rows: seq<Row>, deleted: set<nat>)
    requires UniqueIds(rows)
    ensures UniqueIds(Surviving(rows, deleted))
  {
    if rows != [] {
      var rest := Surviving(rows[1..], deleted);
      SurvivingUnique(rows[1..], deleted);
      forall i | 0 <= i < |rest| ensures rest[i] in rows[1..] {
        SurvivingMembers(rows[1..], deleted, rest[i]);
      }
    }
  }

  /** Deleting a whole subtree keeps the forest: no child loses its parent. */
  lemma DeleteKeepsForest(rows: seq<Row>, root: nat, deleted: set<nat>)
    requires UniqueIds(rows) && DepthInv(rows)
    requires forall id :: id in deleted <==> id == root || Descends(rows, root, id)
    ensures UniqueIds(Surviving(rows, deleted)) && DepthInv(Surviving(rows, deleted))
    ensures NoOrphans(rows) ==> NoOrphans(Surviving(rows, deleted))
  {
    var left := Surviving(rows, deleted);
    SurvivingUnique(rows, deleted);
    forall row ensures row in left <==> row in rows && row.id !in deleted {
      SurvivingMembers(rows, deleted, row);
    }
    if NoOrphans(rows) {
      forall row | row in left && row.parent.Some? ensures row.parent.value in Ids(left) {
        var parent :| parent in rows && parent.id == row.parent.value;
        RowDescends(rows, root, row);
        assert parent in left;
      }
    }
  }

  /** Along a chain of existing rows the depth falls by one per step. */
  lemma {:induction false} ChainDepth(rows: seq<Row>, id: nat, k: nat)
    requires UniqueIds(rows) && DepthInv(rows) && k > 0
    requires Up(rows, id, k).Some? && Find(rows, Up(rows, id, k).value).Some?
    ensures Find(rows, id).Some? && Find(rows, id).value.depth == Find(rows, Up(rows, id, k).value).value.depth + k
  {
    var below := Up(rows, id, k - 1).value;
    if k > 1 {
      ChainDepth(rows, id, k - 1);
    } else {
      assert below == id;
    }
  }

  /** So nothing descends from itself and the walks never report a cycle. */
  lemma NoCycles(rows: seq<Row>, id: nat)
    requires UniqueIds(rows) && DepthInv(rows)
    ensures !Descends(rows, id, id)
  {
    if Descends(rows, id, id) {
      var k: nat :| k > 0 && Up(rows, id, k) == Some(id);
      StartsAtParent(rows, id, k);
      ChainDepth(rows, id, k);
    }
  }

  /** A chain is never longer than the depth of the row it starts from. */
  lemma ChainIsShort(rows: seq<Row>, id: nat, k: nat)
    requires UniqueIds(rows) && DepthInv(rows) && k > 0 && Up(rows, id, k).Some?
    ensures k <= MAXIMUM_DEPTH
  {
    if k > 1 {
      StepExists(rows, id, k);
      ChainDepth(rows, id, k - 1);
    } else {
      assert MAXIMUM_DEPTH == 3;
    }
  }

  lemma StepExists(rows: seq<Row>, id: nat, k: nat)
    requires k > 0 && Up(rows, id, k).Some?
    ensures Up(rows, id, k - 1).Some? && Find(rows, Up(rows, id, k - 1).value).Some?
    ensures Find(rows, Up(rows, id, k - 1).value).value.parent == Up(rows, id, k)
  {
  }

  lemma {:induction false} UpStaysNone(rows: seq<Row>, id: nat, from: nat, k: nat)
    requires Up(rows, id, from).None? && from <= k
    ensures Up(rows, id, k).None?
    decreases k
  {
    if from < k {
      UpStaysNone(rows, id, from, k - 1);
    }
  }

  lemma ChainEnds(rows: seq<Row>, ancestor: nat, id: nat, depth: nat, top: nat)
    requires Up(rows, id, depth) == Some(top) && ParentOf(rows, top).None?
    requires forall k: nat :: 0 < k <= depth ==> Up(rows, id, k) != Some(ancestor)
    ensures !Descends(rows, ancestor, id)
  {
    assert Up(rows, id, depth + 1).None?;
    forall k: nat | k > depth ensures Up(rows, id, k).None? {
      UpStaysNone(rows, id, depth + 1, k);
    }
  }

  lemma {:induction false} UpJoins(rows: seq<Row>, id: nat, a: nat, b: nat)
    requires Up(rows, id, a).Some?
    ensures Up(rows, id, a + b) == Up(rows, Up(rows, id, a).value, b)
    decreases b
  {
    if b > 0 {
      UpJoins(rows, id, a, b - 1);
    }
  }

  lemma RepeatIsNoForest(rows: seq<Row>, id: nat, a: nat, b: nat, p: nat)
    requires a < b && Up(rows, id, a) == Some(p) && Up(rows, id, b) == Some(p)
    ensures !Forest(rows)
  {
    UpJoins(rows, id, a, b - a);
    assert Descends(rows, p, p);
    if Forest(rows) {
      NoCycles(rows, p);
    }
  }

  lemma LongChainIsNoForest(rows: seq<Row>, id: nat, k: nat)
    requires k > MAXIMUM_DEPTH && Up(rows, id, k).Some?
    ensures !Forest(rows)
  {
    if Forest(rows) {
      ChainIsShort(rows, id, k);
    }
  }

  /** The bounded upward walk: it fails only on a row it cannot load, and in a
    * forest it answers whether the ancestor is a real one. */
  method IsAncestor(rows: seq<Row>, ancestor: nat, descendant: nat) returns (r: Result<bool, WalkError>)
    requires UniqueIds(rows)
    ensures r == Ok(true) ==> Descends(rows, ancestor, descendant)
    ensures Forest(rows) && Has(rows, descendant) ==> r == Ok(Descends(rows, ancestor, descendant))
  {
    var current := descendant;
    var seen: set<nat> := {};
    ghost var chain: nat := 0;
    for depth := 0 to MAXIMUM_DEPTH + 1
      invariant chain == depth && Up(rows, descendant, depth) == Some(current)
      invariant forall k: nat :: 0 < k <= depth ==> Up(rows, descendant, k) != Some(ancestor)
      invariant forall p :: p in seen ==> exists k: nat :: 0 < k <= depth && Up(rows, descendant, k) == Some(p)
      invariant Forest(rows) && Has(rows, descendant) ==> Has(rows, current)
    {
      var value := Find(rows, current);
      if value.None? {
        return Err(NotFound);
      }
      if value.value.parent.None? {
        ChainEnds(rows, ancestor, descendant, depth, current);
        return Ok(false);
      }
      var parent := value.value.parent.value;
      assert Up(rows, descendant, depth + 1) == Some(parent);
      if parent == ancestor {
        return Ok(true);
      }
      if parent in seen {
        ghost var k: nat :| 0 < k <= depth && Up(rows, descendant, k) == Some(parent);
        RepeatIsNoForest(rows, descendant, k, depth + 1, parent);
        return Err(LineageCycle);
      }
      seen, current := seen + {parent}, parent;
      chain := chain + 1;
    }
    LongChainIsNoForest(rows, descendant, MAXIMUM_DEPTH + 1);
    r := Ok(false);
  }

  // ----- admission -----

  datatype Refusal = ParentMissing | ParentClosing | ParentSettled | TooDeep | TooManyChildren

  /** The children that count against the parent's limit. */
  function ActiveChildren(rows: seq<Row>, parent: nat): seq<Row> {
    if rows == [] then []
    else
      (if rows[0].parent == Some(parent) && (rows[0].generating || rows[0].running) then [rows[0]] else [])
      + ActiveChildren(rows[1..], parent)
  }

  /** The rows below the parent that generate or run. */
  function ActiveBelow(rows: seq<Row>, parent: nat): set<Row> {
    set row | row in rows && row.parent == Some(parent) && (row.generating || row.running)
  }

  lemma ActiveBelowStep(rows: seq<Row>, parent: nat)
    requires rows != []
    ensures ActiveBelow(rows, parent) == ActiveBelow(rows[1..], parent) +
            if rows[0].parent == Some(parent) && (rows[0].generating || rows[0].running) then {rows[0]} else {}
  {
    assert rows == [rows[0]] + rows[1..];
  }

  lemma FirstIsNew(rows: seq<Row>)
    requires UniqueIds(rows) && rows != []
    ensures UniqueIds(rows[1..]) && rows[0] !in rows[1..]
  {
  }

  /** Each of them is counted once. */
  lemma {:induction false} ActiveChildrenAreCounted(rows: seq<Row>, parent: nat)
    requires UniqueIds(rows)
    ensures |ActiveChildren(rows, parent)| == |ActiveBelow(rows, parent)|
  {
    if rows != [] {
      FirstIsNew(rows);
      ActiveBelowStep(rows, parent);
      ActiveChildrenAreCounted(rows[1..], parent);
      assert rows[0] !in ActiveBelow(rows[1..], parent);
      hide UniqueIds, ActiveBelow;
    }
  }

  predicate Admissible(rows: seq<Row>, closing: bool, parent: nat) {
    && !closing && Find(rows, parent).Some?
    && var row := Find(rows, parent).value;
       && (row.parent.Some? ==> row.running)
       && row.depth < MAXIMUM_DEPTH
       && |ActiveChildren(rows, parent)| < MAXIMUM_ACTIVE_CHILDREN
  }

  /** The checks of a spawn, in the order they refuse.  A row without a parent
    * counts as depth zero. */
  method CheckSpawn(rows: seq<Row>, closing: bool, parent: nat) returns (r: Result<nat, Refusal>)
    requires DepthInv(rows)
    ensures r.Ok? <==> Admissible(rows, closing, parent)
    ensures r.Ok? ==> r.value == Find(rows, parent).value.depth + 1
    ensures r == Err(ParentClosing) <==> closing
    ensures r == Err(ParentMissing) <==> !closing && Find(rows, parent).None?
    ensures !closing && Find(rows, parent).Some? ==>
      var row, children := Find(rows, parent).value, |ActiveChildren(rows, parent)|;
      && (r == Err(ParentSettled) <==> row.parent.Some? && !row.running)
      && (r == Err(TooDeep) <==> (row.parent.Some? ==> row.running) && row.depth >= MAXIMUM_DEPTH)
      && (r == Err(TooManyChildren) <==>
            (row.parent.Some? ==> row.running) && row.depth < MAXIMUM_DEPTH && children >= MAXIMUM_ACTIVE_CHILDREN)
      && (r.Ok? <==> (row.parent.Some? ==> row.running) && row.depth < MAXIMUM_DEPTH && children < MAXIMUM_ACTIVE_CHILDREN)
  {
    if closing {
      return Err(ParentClosing);
    }
    var found := Find(rows, parent);
    if found.None? {
      return Err(ParentMissing);
    }
    if found.value.parent.Some? && !found.value.running {
      return Err(ParentSettled);
    }
    var depth := 1;
    if found.value.parent.Some? {
      depth := found.value.depth + 1;
    }
    if depth > MAXIMUM_DEPTH {
      return Err(TooDeep);
    }
    var active := 0;
    for index := 0 to |rows|
      invariant active + |ActiveChildren(rows[index..], parent)| == |ActiveChildren(rows, parent)|
    {
      assert rows[index..][1..] == rows[index + 1..];
      if rows[index].parent == Some(parent) && (rows[index].generating || rows[index].running) {
        active := active + 1;
      }
    }
    if active >= MAXIMUM_ACTIVE_CHILDREN {
      return Err(TooManyChildren);
    }
    r := Ok(depth);
  }

  function Replaced(rows: seq<Row>, row: Row): (r: seq<Row>)
    ensures |r| == |rows|
    ensures forall i :: 0 <= i < |rows| ==> r[i] == if rows[i].id == row.id then row else rows[i]
  {
    seq(|rows|, i requires 0 <= i < |rows| => if rows[i].id == row.id then row else rows[i])
  }

  /** Giving a childless root conversation its descriptor keeps the depths; it
    * keeps the forest exactly when the parent still exists. */
  lemma DescribeKeepsForest(rows: seq<Row>, child: Row, parent: nat, depth: nat)
    requires UniqueIds(rows) && DepthInv(rows) && child in rows && child.parent.None?
    requires forall row :: row in rows ==> row.parent != Some(child.id)
    requires 1 <= depth <= MAXIMUM_DEPTH && parent != child.id
    requires forall row :: row in rows && row.id == parent ==> row.depth + 1 == depth
    ensures var rows' := Replaced(rows, child.(parent := Some(parent), depth := depth, running := true));
      && UniqueIds(rows') && DepthInv(rows')
      && (NoOrphans(rows) ==> (NoOrphans(rows') <==> parent in Ids(rows)))
  {
    var child' := child.(parent := Some(parent), depth := depth, running := true);
    var rows' := Replaced(rows, child');
    forall row ensures row in rows' <==> row == child' || (row in rows && row.id != child.id) {
      ReplacedMembers(rows, child', row);
    }
    assert forall id :: id in Ids(rows') <==> id in Ids(rows) by {
      forall id ensures id in Ids(rows') <==> id in Ids(rows) {
        if id != child.id {
          if id in Ids(rows) {
            var row :| row in rows && row.id == id;
            assert row in rows';
          }
        } else {
          assert child in rows && child' in rows';
        }
      }
    }
    hide Replaced;
    assert child' in rows';
  }

  lemma ReplacedMembers(rows: seq<Row>, row: Row, x: Row)
    requires UniqueIds(rows) && Has(rows, row.id)
    ensures x in Replaced(rows, row) <==> x == row || (x in rows && x.id != row.id)
  {
    var rows' := Replaced(rows, row);
    var at :| 0 <= at < |rows| && rows[at].id == row.id;
    assert rows'[at] == row;
    if x in rows' {
      var i :| 0 <= i < |rows'| && rows'[i] == x;
      assert rows[i] in rows;
    }
    if x in rows && x.id != row.id {
      var i :| 0 <= i < |rows| && rows[i] == x;
      assert rows'[i] == x;
    }
  }
}
