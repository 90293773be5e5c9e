/** A conversation's goal: its revision-checked edits and transitions, the rounds
  * that racing drivers admit, and the loop that drives it.
  */
module ConversationGoal {
  import opened Wrappers

  const MAXIMUM_ROUNDS: nat := 10000
  const MAXIMUM_OBJECTIVE: nat := 32768
  const MAXIMUM_MESSAGE: nat := 4096

  datatype Phase = Active | Paused | Blocked | Complete

  datatype Reason = Reason(code: string, message: string)

  datatype Goal = Goal(
    id: nat, revision: nat, objective: string, phase: Phase, reason: Option<Reason>,
    started: nat, limit: nat, createdAt: int, updatedAt: int)

  datatype Refusal = Invalid | NotFound | Stale

  datatype Move = Pause | Resume | Finish | Block(reason: Reason)

  // ----- the operations -----

  predicate CodeCharacter(c: char) {
    'a' <= c <= 'z' || '0' <= c <= '9' || c == '-'
  }

  predicate ValidCode(code: string) {
    && code != "" && 'a' <= code[0] <= 'z' && code[|code| - 1] != '-'
    && (forall i :: 0 <= i < |code| ==> CodeCharacter(code[i]))
    && (forall i :: 0 < i < |code| ==> code[i - 1] != '-' || code[i] != '-')
  }

  predicate ValidReason(r: Reason) {
    ValidCode(r.code) && 0 < |r.message| <= MAXIMUM_MESSAGE
  }

  const ROUND_LIMIT: Reason := Reason("round-limit", "Goal reached its configured limit of rounds.")

  predicate ValidObjective(objective: string) {
    0 < |objective| <= MAXIMUM_OBJECTIVE
  }

  predicate ValidLimit(limit: nat) {
    0 < limit <= MAXIMUM_ROUNDS
  }

  function Later(goal: Goal, now: int): int {
    if now < goal.updatedAt then goal.updatedAt else now
  }

  function Created(goal: Option<Goal>, subagent: bool, id: nat, objective: string, limit: nat,
      now: int): Result<Goal, Refusal> {
    if !ValidObjective(objective) || !ValidLimit(limit) then Err(Invalid)
    else if subagent || (goal.Some? && !goal.value.phase.Complete?) then Err(Stale)
    else Ok(Goal(id, 1, objective, Active, None, 0, limit, now, now))
  }

  function Current(goal: Option<Goal>, id: nat, revision: nat): Result<Goal, Refusal> {
    if goal.None? then Err(NotFound)
    else if goal.value.id != id || goal.value.revision != revision then Err(Stale)
    else Ok(goal.value)
  }

  function Edited(goal: Option<Goal>, id: nat, revision: nat, objective: Option<string>, limit: Option<nat>,
      now: int): Result<Goal, Refusal> {
    if objective.None? && limit.None? then Err(Invalid)
    else if objective.Some? && !ValidObjective(objective.value) then Err(Invalid)
    else if limit.Some? && !ValidLimit(limit.value) then Err(Invalid)
    else
      var current := Current(goal, id, revision);
      if current.Err? then current
      else
        var g := current.value;
        Ok(g.(objective := if objective.Some? then objective.value else g.objective,
              limit := if limit.Some? then limit.value else g.limit,
              revision := g.revision + 1, updatedAt := Later(g, now)))
  }

  predicate Allowed(move: Move, phase: Phase) {
    match move
    case Pause => phase.Active?
    case Resume => !phase.Complete?
    case Finish => !phase.Complete?
    case Block(_) => phase.Active?
  }

  function Target(move: Move): Phase {
    match move
    case Pause => Paused
    case Resume => Active
    case Finish => Complete
    case Block(_) => Blocked
  }

  function Moved(goal: Option<Goal>, armed: bool, id: nat, revision: nat, move: Move, now: int): Result<Goal, Refusal> {
    if move.Block? && !ValidReason(move.reason) then Err(Invalid)
    else if move.Resume? && armed then Err(Stale)
    else
      var current := Current(goal, id, revision);
      if current.Err? then current
      else
        var g := current.value;
        if !Allowed(move, g.phase) || (move.Resume? && g.started >= g.limit) then Err(Stale)
        else
          Ok(g.(revision := g.revision + 1, updatedAt := Later(g, now), phase := Target(move),
                reason := if move.Block? then Some(move.reason) else None))
  }

  /** The transaction that admits the round after the one the driver saw. */
  function RoundAdmitted(goal: Option<Goal>, seen: Goal, now: int): Result<Goal, Refusal> {
    var current := Current(goal, seen.id, seen.revision);
    if current.Err? then current
    else
      var g := current.value;
      if !g.phase.Active? || g.started != seen.started then Err(Stale)
      else Ok(g.(started := seen.started + 1, updatedAt := Later(g, now)))
  }

  predicate Sound(g: Goal) {
    && g.revision > 0 && ValidObjective(g.objective) && ValidLimit(g.limit) && g.started <= MAXIMUM_ROUNDS
    && (g.reason.Some? <==> g.phase.Blocked?) && g.createdAt <= g.updatedAt
  }

  predicate Drivable(goal: Option<Goal>, subagent: bool, armed: Option<nat>) {
    goal.Some? && goal.value.phase.Active? && !subagent && armed == Some(goal.value.id)
  }

  // ----- the board -----

  datatype Turn = Progress | Achieved | Stuck(reason: Reason) | Failed

  class GoalBoard {
    var goal: Option<Goal>
    var armed: Option<nat>
    const subagent: bool

    predicate Valid()
      reads this
    {
      goal.Some? ==> Sound(goal.value)
    }

    constructor (subagent: bool)
      ensures Valid() && goal.None? && armed.None? && this.subagent == subagent
    {
      goal, armed, this.subagent := None, None, subagent;
    }

    method Create(id: nat, objective: string, limit: nat, now: int) returns (r: Result<Goal, Refusal>)
      requires Valid()
      modifies this
      ensures Valid() && r == Created(old(goal), subagent, id, objective, limit, now)
      ensures r.Ok? ==> goal == Some(r.value) && armed == Some(id)
      ensures r.Err? ==> goal == old(goal) && armed == old(armed)
    {
      if !ValidObjective(objective) || !ValidLimit(limit) {
        return Err(Invalid);
      }
      if subagent || (goal.Some? && goal.value.phase != Complete) {
        return Err(Stale);
      }
      var created := Goal(id, 1, objective, Active, None, 0, limit, now, now);
      goal := Some(created);
      armed := Some(id);
      r := Ok(created);
    }

    method Edit(id: nat, revision: nat, objective: Option<string>, limit: Option<nat>,
        now: int) returns (r: Result<Goal, Refusal>)
      requires Valid()
      modifies this`goal
      ensures Valid() && r == Edited(old(goal), id, revision, objective, limit, now)
      ensures goal == if r.Ok? then Some(r.value) else old(goal)
    {
      if (objective.None? && limit.None?) || (objective.Some? && !ValidObjective(objective.value))
         || (limit.Some? && !ValidLimit(limit.value)) {
        return Err(Invalid);
      }
      var current := Current(goal, id, revision);
      if current.Err? {
        return current;
      }
      var g := current.value;
      if objective.Some? {
        g := g.(objective := objective.value);
      }
      if limit.Some? {
        g := g.(limit := limit.value);
      }
      g := g.(revision := g.revision + 1);
      g := g.(updatedAt := Later(g, now));
      goal := Some(g);
      r := Ok(g);
    }

    method Transition(id: nat, revision: nat, move: Move, now: int) returns (r: Result<Goal, Refusal>)
      requires Valid()
      modifies this
      ensures Valid() && r == Moved(old(goal), old(armed) == Some(id), id, revision, move, now)
      ensures goal == if r.Ok? then Some(r.value) else old(goal)
      ensures armed == if r.Err? then old(armed)
                       else if move.Resume? then Some(id) else if old(armed) == Some(id) then None else old(armed)
    {
      if move.Block? && !ValidReason(move.reason) {
        return Err(Invalid);
      }
      if move.Resume? && armed == Some(id) {
        return Err(Stale);
      }
      var current := Current(goal, id, revision);
      if current.Err? {
        return current;
      }
      var g := current.value;
      if !Allowed(move, g.phase) || (move.Resume? && g.started >= g.limit) {
        return Err(Stale);
      }
      g := g.(revision := g.revision + 1);
      g := g.(updatedAt := Later(g, now));
      g := g.(reason := None);
      match move {
        case Pause => g := g.(phase := Paused);
        case Resume => g := g.(phase := Active);
        case Finish => g := g.(phase := Complete);
        case Block(reason) => g := g.(phase := Blocked, reason := Some(reason));
      }
      goal := Some(g);
      if move.Resume? {
        armed := Some(id);
      } else if armed == Some(id) {
        armed := None;
      }
      r := Ok(g);
    }

    method Clear(id: nat, revision: nat) returns (ok: bool)
      requires Valid()
      modifies this
      ensures Valid() && ok == Current(old(goal), id, revision).Ok?
      ensures goal == if ok then None else old(goal)
      ensures armed == if ok && old(armed) == Some(id) then None else old(armed)
    {
      var current := Current(goal, id, revision);
      if current.Err? {
        return false;
      }
      goal := None;
      if armed == Some(id) {
        armed := None;
      }
      ok := true;
    }

    /** Nothing else runs between the read and the transaction here. */
    method AdmitNext(now: int) returns (round: Option<nat>)
      requires Valid()
      modifies this
      ensures Valid()
      ensures round.Some? <==> Drivable(old(goal), subagent, old(armed)) && old(goal).value.started < old(goal).value.limit
      ensures round.Some? ==>
        var g := old(goal).value;
        round.value == g.started + 1 && goal == Some(g.(started := round.value, updatedAt := Later(g, now)))
      ensures round.Some? || !Drivable(old(goal), subagent, old(armed)) ==> armed == old(armed)
      ensures !Drivable(old(goal), subagent, old(armed)) ==> goal == old(goal)
      ensures round.None? && Drivable(old(goal), subagent, old(armed)) ==>
        var g := old(goal).value;
        && armed == None
        && goal == Some(g.(revision := g.revision + 1, updatedAt := Later(g, now), phase := Blocked,
                           reason := Some(ROUND_LIMIT)))
    {
      if goal.None? || goal.value.phase != Active || subagent || armed != Some(goal.value.id) {
        return None;
      }
      var seen := goal.value;
      if seen.started >= seen.limit {
        var blocked := Transition(seen.id, seen.revision, Block(ROUND_LIMIT), now);
        return None;
      }
      round := Some(seen.started + 1);
      goal := Some(seen.(started := seen.started + 1, updatedAt := Later(seen, now)));
    }

    /** The drive loop with nobody else acting on the goal: `turn` says how the
      * turn of each round ends.  It admits no more than the rounds left; if every
      * turn only makes progress it admits all of them and blocks the goal. */
    method Drain(turn: nat -> Turn, now: int) returns (rounds: nat)
      requires Valid() && Drivable(goal, subagent, armed)
      requires forall n :: turn(n).Stuck? ==> ValidReason(turn(n).reason)
      modifies this
      ensures Valid() && goal.Some? && goal.value.id == old(goal).value.id
      ensures old(goal).value.started >= old(goal).value.limit ==> rounds == 0
      ensures rounds <= if old(goal).value.started < old(goal).value.limit
                        then old(goal).value.limit - old(goal).value.started else 0
      ensures goal.value.started == old(goal).value.started + rounds
      ensures !Drivable(goal, subagent, armed)
      ensures forall n :: old(goal).value.started < n < goal.value.started ==> turn(n) == Progress
      ensures rounds == 0 || turn(goal.value.started) == Progress ==>
        && old(goal).value.limit <= goal.value.started
        && goal.value.phase == Blocked && goal.value.reason == Some(ROUND_LIMIT) && armed.None?
      ensures rounds > 0 && turn(goal.value.started) == Achieved ==> goal.value.phase == Complete && armed.None?
      ensures rounds > 0 && turn(goal.value.started).Stuck? ==>
        goal.value.phase == Blocked && goal.value.reason == Some(turn(goal.value.started).reason) && armed.None?
      ensures rounds > 0 && turn(goal.value.started) == Failed ==>
        goal.value.phase == Active && goal.value.revision == old(goal).value.revision && armed.None?
      ensures (forall n :: old(goal).value.started < n <= old(goal).value.limit ==> turn(n) == Progress) ==>
        && goal.value.phase == Blocked && goal.value.reason == Some(ROUND_LIMIT)
        && (old(goal).value.started <= old(goal).value.limit ==> goal.value.started == old(goal).value.limit)
    {
      rounds := 0;
      while true
        invariant Valid() && Drivable(goal, subagent, armed)
        invariant goal.value.id == old(goal).value.id && goal.value.limit == old(goal).value.limit
        invariant goal.value.started == old(goal).value.started + rounds
        invariant rounds > 0 ==> goal.value.started <= goal.value.limit
        invariant goal.value.revision == old(goal).value.revision
        invariant forall n :: old(goal).value.started < n <= goal.value.started ==> turn(n) == Progress
        decreases goal.value.limit - goal.value.started
      {
        var round := AdmitNext(now);
        if round.None? {
          return;
        }
        rounds := rounds + 1;
        match turn(round.value) {
          case Progress =>
          case Achieved =>
            var done := Transition(goal.value.id, goal.value.revision, Finish, now);
            return;
          case Stuck(reason) =>
            var done := Transition(goal.value.id, goal.value.revision, Block(reason), now);
            return;
          case Failed =>
            armed := None;
            return;
        }
      }
    }
  }

  // ----- racing clients and drivers -----

  /** `drivers` holds what each driver read and has not acted on; `rounds` is the
    * history of admitted rounds.  Arming lags behind the commits. */
  datatype World = World(
    goal: Option<Goal>, subagent: bool, armed: Option<nat>, used: set<nat>,
    drivers: map<nat, Goal>, rounds: seq<(nat, nat)>)

  datatype Action =
    | Create(id: nat, objective: string, limit: nat, now: int)
    | Edit(id: nat, revision: nat, newObjective: Option<string>, newLimit: Option<nat>, now: int)
    | Transition(id: nat, revision: nat, move: Move, now: int)
    | Clear(id: nat, revision: nat)
    | Arm(id: nat)
    | Disarm
    | Read(driver: nat)
    | Act(driver: nat, now: int)
    | Restart

  /** A resume's own test of the armed flag may be out of date by the time it
    * commits, so the commit is allowed whatever the flag says. */
  ghost predicate Next(w: World, w': World, a: Action) {
    match a
    case Create(id, objective, limit, now) =>
      && id !in w.used && Created(w.goal, w.subagent, id, objective, limit, now).Ok?
      && w' == w.(goal := Some(Created(w.goal, w.subagent, id, objective, limit, now).value), used := w.used + {id})
    case Edit(id, revision, objective, limit, now) =>
      && Edited(w.goal, id, revision, objective, limit, now).Ok?
      && w' == w.(goal := Some(Edited(w.goal, id, revision, objective, limit, now).value))
    case Transition(id, revision, move, now) =>
      && Moved(w.goal, false, id, revision, move, now).Ok?
      && w' == w.(goal := Some(Moved(w.goal, false, id, revision, move, now).value))
    case Clear(id, revision) => Current(w.goal, id, revision).Ok? && w' == w.(goal := None)
    case Arm(id) => id in w.used && w' == w.(armed := Some(id))
    case Disarm => w' == w.(armed := None)
    case Read(driver) =>
      Drivable(w.goal, w.subagent, w.armed) && w' == w.(drivers := w.drivers[driver := w.goal.value])
    case Act(driver, now) =>
      && driver in w.drivers
      && var seen, rest := w.drivers[driver], map d | d in w.drivers && d != driver :: w.drivers[d];
         w' == (if seen.started >= seen.limit then
                  var blocked := Moved(w.goal, false, seen.id, seen.revision, Block(ROUND_LIMIT), now);
                  w.(drivers := rest, goal := if blocked.Ok? then Some(blocked.value) else w.goal)
                else
                  var admitted := RoundAdmitted(w.goal, seen, now);
                  if admitted.Err? then w.(drivers := rest)
                  else w.(drivers := rest, goal := Some(admitted.value), rounds := w.rounds + [(seen.id, seen.started + 1)]))
    case Restart => w' == w.(armed := None, drivers := map[])
  }

  ghost predicate Init(w: World) {
    w == World(None, w.subagent, None, {}, map[], [])
  }

  ghost predicate Behavior(tr: seq<World>, actions: seq<Action>) {
    && |tr| == |actions| + 1 && Init(tr[0])
    && (forall i :: 0 <= i < |actions| ==> Next(tr[i], tr[i + 1], actions[i]))
  }

  // ----- rounds are admitted once -----

  function RoundsOf(rounds: seq<(nat, nat)>, id: nat): seq<nat> {
    if rounds == [] then []
    else RoundsOf(rounds[..|rounds| - 1], id)
         + if rounds[|rounds| - 1].0 == id then [rounds[|rounds| - 1].1] else []
  }

  function Upto(n: nat): seq<nat> {
    if n == 0 then [] else Upto(n - 1) + [n]
  }

  /** The rounds 1 to n, in order. */
  ghost predicate Counted(rounds: seq<nat>) {
    rounds == Upto(|rounds|)
  }

  /** What a later goal with the same identifier may look like: equal revisions
    * mean nothing but the progress changed. */
  predicate Follows(g: Goal, later: Goal) {
    && g.revision <= later.revision && g.started <= later.started
    && (g.phase.Complete? ==> later.phase.Complete?)
    && (later.revision == g.revision ==> later == g.(started := later.started, updatedAt := later.updatedAt))
  }

  predicate Remembers(w: World, g: Goal) {
    g.id in w.used && (w.goal.Some? && w.goal.value.id == g.id ==> Follows(g, w.goal.value))
  }

  ghost predicate Inv(w: World) {
    && (w.goal.Some? ==> Sound(w.goal.value) && w.goal.value.id in w.used)
    && (w.goal.Some? ==> RoundsOf(w.rounds, w.goal.value.id) == Upto(w.goal.value.started))
    && (forall id :: Counted(RoundsOf(w.rounds, id)))
    && (forall id :: id !in w.used ==> RoundsOf(w.rounds, id) == [])
    && (forall d :: d in w.drivers ==> Remembers(w, w.drivers[d]))
  }

  lemma OperationsKeepSound(goal: Option<Goal>, id: nat, revision: nat, objective: Option<string>,
      limit: Option<nat>, move: Move, now: int)
    requires goal.Some? ==> Sound(goal.value)
    ensures var r := Edited(goal, id, revision, objective, limit, now);
      r.Ok? ==> Sound(r.value) && goal.Some? && r.value.id == goal.value.id == id && Follows(goal.value, r.value)
                && r.value.revision == revision + 1 && r.value.started == goal.value.started
    ensures var r := Moved(goal, false, id, revision, move, now);
      r.Ok? ==> Sound(r.value) && goal.Some? && r.value.id == goal.value.id == id && Follows(goal.value, r.value)
                && r.value.revision == revision + 1 && r.value.started == goal.value.started
  {
  }

  /** A snapshot stays remembered: its goal only moves forward, and once gone its
    * identifier never comes back. */
  lemma NextRemembers(w: World, w': World, a: Action, g: Goal)
    requires Inv(w) && Next(w, w', a) && Remembers(w, g)
    ensures Remembers(w', g)
  {
    hide RoundsOf, Upto;
    match a
    case Edit(id, revision, objective, limit, now) =>
      OperationsKeepSound(w.goal, id, revision, objective, limit, Pause, now);
    case Transition(id, revision, move, now) =>
      OperationsKeepSound(w.goal, id, revision, None, None, move, now);
    case Act(driver, now) =>
      var seen := w.drivers[driver];
      OperationsKeepSound(w.goal, seen.id, seen.revision, None, None, Block(ROUND_LIMIT), now);
    case _ =>
  }

  lemma RoundAppended(rounds: seq<(nat, nat)>, entry: (nat, nat), id: nat)
    ensures RoundsOf(rounds + [entry], id) == RoundsOf(rounds, id) + if entry.0 == id then [entry.1] else []
  {
    assert (rounds + [entry])[..|rounds|] == rounds;
  }

  lemma AdmissionKeepsRounds(w: World, seen: Goal, goal: Goal)
    requires Inv(w) && w.goal.Some? && w.goal.value.id == seen.id && w.goal.value.started == seen.started
    requires goal.id == seen.id && goal.started == seen.started + 1
    ensures var rounds := w.rounds + [(seen.id, seen.started + 1)];
      && RoundsOf(rounds, seen.id) == Upto(goal.started)
      && (forall id :: Counted(RoundsOf(rounds, id)))
      && (forall id :: id !in w.used ==> RoundsOf(rounds, id) == [])
  {
    var rounds := w.rounds + [(seen.id, seen.started + 1)];
    assert RoundsOf(w.rounds, seen.id) == Upto(seen.started);
    forall id
      ensures Counted(RoundsOf(rounds, id))
      ensures id == seen.id ==> RoundsOf(rounds, id) == Upto(goal.started)
      ensures id !in w.used ==> RoundsOf(rounds, id) == []
    {
      RoundAppended(w.rounds, (seen.id, seen.started + 1), id);
      if id == seen.id {
        assert RoundsOf(rounds, id) == Upto(goal.started);
        UptoAt(goal.started);
      } else {
        assert RoundsOf(rounds, id) == RoundsOf(w.rounds, id);
      }
    }
  }

  lemma ActKeeps(w: World, w': World, driver: nat, now: int)
    requires Inv(w) && Next(w, w', Act(driver, now))
    ensures Inv(w')
  {
    var seen := w.drivers[driver];
    OperationsKeepSound(w.goal, seen.id, seen.revision, None, None, Block(ROUND_LIMIT), now);
    forall d | d in w'.drivers ensures Remembers(w', w'.drivers[d]) {
      NextRemembers(w, w', Act(driver, now), w.drivers[d]);
    }
    var admitted := RoundAdmitted(w.goal, seen, now);
    hide Remembers, RoundsOf, Upto, Counted;
    if seen.started < seen.limit && admitted.Ok? {
      AdmissionKeepsRounds(w, seen, admitted.value);
      SeenLimit(w, seen);
    }
  }

  /** A driver that acts on the current revision saw the current limit. */
  lemma SeenLimit(w: World, seen: Goal)
    requires Remembers(w, seen) && w.goal.Some? && w.goal.value.id == seen.id && w.goal.value.revision == seen.revision
    ensures w.goal.value.limit == seen.limit
  {
  }

  lemma NextKeepsInv(w: World, w': World, a: Action)
    requires Inv(w) && Next(w, w', a)
    ensures Inv(w')
  {
    if a.Act? {
      ActKeeps(w, w', a.driver, a.now);
    } else {
      forall d | d in w'.drivers && d in w.drivers && w'.drivers[d] == w.drivers[d] ensures Remembers(w', w'.drivers[d]) {
        NextRemembers(w, w', a, w.drivers[d]);
      }
      OthersKeepInv(w, w', a);
    }
  }

  lemma OthersKeepInv(w: World, w': World, a: Action)
    requires Inv(w) && Next(w, w', a) && !a.Act?
    requires forall d :: d in w'.drivers && d in w.drivers && w'.drivers[d] == w.drivers[d] ==> Remembers(w', w'.drivers[d])
    ensures Inv(w')
  {
    hide RoundsOf, Counted;
    match a
    case Edit(id, revision, objective, limit, now) =>
      OperationsKeepSound(w.goal, id, revision, objective, limit, Pause, now);
    case Transition(id, revision, move, now) =>
      OperationsKeepSound(w.goal, id, revision, None, None, move, now);
    case _ =>
  }

  lemma {:induction false} BehaviorKeepsInv(tr: seq<World>, actions: seq<Action>, i: nat)
    requires Behavior(tr, actions) && i < |tr|
    ensures Inv(tr[i])
  {
    if i > 0 {
      BehaviorKeepsInv(tr, actions, i - 1);
      NextKeepsInv(tr[i - 1], tr[i], actions[i - 1]);
    } else {
      assert forall id :: RoundsOf(tr[0].rounds, id) == [];
    }
  }

  lemma {:induction false} UptoAt(n: nat)
    ensures |Upto(n)| == n && forall k :: 0 <= k < n ==> Upto(n)[k] == k + 1
  {
    if n > 0 {
      UptoAt(n - 1);
    }
  }

  /** However drivers race, the rounds admitted for a goal are 1, 2, 3, ... in
    * order, each once, and the current goal has started exactly those. */
  lemma RoundsAreAdmittedOnce(tr: seq<World>, actions: seq<Action>, i: nat, id: nat)
    requires Behavior(tr, actions) && i < |tr|
    ensures var rounds := RoundsOf(tr[i].rounds, id);
      && (forall k :: 0 <= k < |rounds| ==> rounds[k] == k + 1)
      && (tr[i].goal.Some? && tr[i].goal.value.id == id ==> |rounds| == tr[i].goal.value.started)
  {
    BehaviorKeepsInv(tr, actions, i);
    assert Counted(RoundsOf(tr[i].rounds, id));
    UptoAt(|RoundsOf(tr[i].rounds, id)|);
    if tr[i].goal.Some? && tr[i].goal.value.id == id {
      UptoAt(tr[i].goal.value.started);
    }
  }

  /** Over any stretch of a run the same goal's revision and progress never fall,
    * completion is final, and an unchanged revision means an unchanged goal but
    * for its progress. */
  lemma {:induction false} GoalsMoveForward(tr: seq<World>, actions: seq<Action>, i: nat, j: nat)
    requires Behavior(tr, actions) && i <= j < |tr| && tr[i].goal.Some?
    ensures Remembers(tr[j], tr[i].goal.value)
    decreases j
  {
    BehaviorKeepsInv(tr, actions, j);
    if i < j {
      GoalsMoveForward(tr, actions, i, j - 1);
      BehaviorKeepsInv(tr, actions, j - 1);
      NextRemembers(tr[j - 1], tr[j], actions[j - 1], tr[i].goal.value);
    }
  }

  /** The steps that revise the goal: an edit, a transition, and a driver that
    * blocks a goal whose rounds are used up. */
  predicate Revises(w: World, a: Action) {
    || a.Edit? || a.Transition?
    || (a.Act? && a.driver in w.drivers
        && var seen := w.drivers[a.driver];
           seen.started >= seen.limit
           && Moved(w.goal, false, seen.id, seen.revision, Block(ROUND_LIMIT), a.now).Ok?)
  }

  function Revisions(tr: seq<World>, actions: seq<Action>, i: nat, j: nat): nat
    requires i <= j <= |actions| && j < |tr|
  {
    if i == j then 0 else Revisions(tr, actions, i, j - 1) + if Revises(tr[j - 1], actions[j - 1]) then 1 else 0
  }

  lemma RevisionStep(w: World, w': World, a: Action, id: nat)
    requires Inv(w) && Next(w, w', a) && id in w.used && w'.goal.Some? && w'.goal.value.id == id
    ensures w.goal.Some? && w.goal.value.id == id
    ensures w'.goal.value.revision == w.goal.value.revision + if Revises(w, a) then 1 else 0
  {
  }

  /** A goal's revision counts its edits and moves exactly: over any stretch of
    * any run it grows by one for each, and admitting rounds leaves it alone. */
  lemma {:induction false} RevisionsAreCounted(tr: seq<World>, actions: seq<Action>, i: nat, j: nat)
    requires Behavior(tr, actions) && i <= j < |tr| && tr[i].goal.Some?
    requires tr[j].goal.Some? && tr[j].goal.value.id == tr[i].goal.value.id
    ensures tr[j].goal.value.revision == tr[i].goal.value.revision + Revisions(tr, actions, i, j)
    decreases j
  {
    if i < j {
      GoalsMoveForward(tr, actions, i, j - 1);
      BehaviorKeepsInv(tr, actions, j - 1);
      assert Next(tr[j - 1], tr[j - 1 + 1], actions[j - 1]);
      hide Inv, Next, Behavior, Revises;
      RevisionStep(tr[j - 1], tr[j], actions[j - 1], tr[i].goal.value.id);
      RevisionsAreCounted(tr, actions, i, j - 1);
    }
  }

  /** A goal has a blocking reason exactly while it is blocked. */
  lemma ReasonIffBlocked(tr: seq<World>, actions: seq<Action>, i: nat)
    requires Behavior(tr, actions) && i < |tr| && tr[i].goal.Some?
    ensures Sound(tr[i].goal.value) && (tr[i].goal.value.reason.Some? <==> tr[i].goal.value.phase == Blocked)
  {
    BehaviorKeepsInv(tr, actions, i);
  }

  ghost predicate NoEdits(actions: seq<Action>, i: nat, j: nat)
    requires i <= j <= |actions|
  {
    forall k :: i <= k < j ==> !actions[k].Edit?
  }

  predicate Within(w: World, g: Goal) {
    w.goal.Some? && w.goal.value.id == g.id ==>
      w.goal.value.limit == g.limit && w.goal.value.started <= if g.started < g.limit then g.limit else g.started
  }

  lemma NextWithin(w: World, w': World, a: Action, g: Goal)
    requires Inv(w) && Next(w, w', a) && !a.Edit? && Within(w, g) && Remembers(w, g)
    ensures Within(w', g)
  {
    hide RoundsOf, Upto;
    match a
    case Act(driver, now) => assert Remembers(w, w.drivers[driver]);
    case _ =>
  }

  /** Without an edit, however many drivers race and whoever pauses and resumes,
    * a goal gets at most the rounds it has left. */
  lemma {:induction false} RoundsAreBounded(tr: seq<World>, actions: seq<Action>, i: nat, j: nat)
    requires Behavior(tr, actions) && i <= j < |tr| && tr[i].goal.Some? && NoEdits(actions, i, j)
    ensures Within(tr[j], tr[i].goal.value)
    decreases j
  {
    if i < j {
      RoundsAreBounded(tr, actions, i, j - 1);
      BehaviorKeepsInv(tr, actions, j - 1);
      GoalsMoveForward(tr, actions, i, j - 1);
      NextWithin(tr[j - 1], tr[j], actions[j - 1], tr[i].goal.value);
    }
  }

  // ----- what the transitions do -----

  /** Only an active goal is paused or blocked, only an unfinished one is finished
    * or resumed, and a resume needs rounds left and nobody driving.  The move
    * changes the phase and its reason, the revision and the time, nothing else. */
  lemma MovesAre(goal: Option<Goal>, armed: bool, id: nat, revision: nat, move: Move, now: int)
    ensures var r := Moved(goal, armed, id, revision, move, now);
      && (r.Ok? <==>
            && goal.Some? && goal.value.id == id && goal.value.revision == revision
            && (move.Pause? || move.Block? ==> goal.value.phase == Active)
            && (move.Resume? || move.Finish? ==> goal.value.phase != Complete)
            && (move.Resume? ==> !armed && goal.value.started < goal.value.limit)
            && (move.Block? ==> ValidReason(move.reason)))
      && (r.Ok? ==>
            && var g, g' := goal.value, r.value;
               && (move.Pause? ==> g'.phase == Paused) && (move.Resume? ==> g'.phase == Active)
               && (move.Finish? ==> g'.phase == Complete) && (move.Block? ==> g'.phase == Blocked)
               && g'.reason == (if move.Block? then Some(move.reason) else None)
               && g'.revision == g.revision + 1 && g'.updatedAt >= g.updatedAt && g'.updatedAt >= now
               && (g'.updatedAt == now || g'.updatedAt == g.updatedAt)
               && (g'.id, g'.objective, g'.started, g'.limit, g'.createdAt)
                  == (g.id, g.objective, g.started, g.limit, g.createdAt))
  {
  }

  /** Pausing and resuming gives back the goal, two revisions later. */
  lemma PauseIsUndone(goal: Option<Goal>, armed: bool, id: nat, revision: nat, now: int, later: int)
    requires goal.Some? && Sound(goal.value) && Moved(goal, armed, id, revision, Pause, now).Ok?
    ensures var paused := Some(Moved(goal, armed, id, revision, Pause, now).value);
      var resumed := Moved(paused, false, id, revision + 1, Resume, later);
      && (resumed.Ok? <==> goal.value.started < goal.value.limit)
      && (resumed.Ok? ==>
            resumed.value == goal.value.(revision := revision + 2, updatedAt := resumed.value.updatedAt))
  {
  }

  /** A driver's attempt admits a round exactly when the goal it read is still the
    * current one, unrevised, active and no further, and had rounds left; it blocks
    * the goal exactly when that had none left; otherwise nothing happens to it. */
  lemma AttemptsAre(w: World, w': World, driver: nat, now: int)
    requires Inv(w) && Next(w, w', Act(driver, now))
    ensures driver in w.drivers && driver !in w'.drivers
    ensures var seen := w.drivers[driver];
      var current := w.goal.Some? && w.goal.value.id == seen.id && w.goal.value.revision == seen.revision
                     && w.goal.value.phase == Active;
      && (w'.rounds != w.rounds <==> current && w.goal.value.started == seen.started && seen.started < seen.limit)
      && (w'.rounds != w.rounds ==>
            && w'.rounds == w.rounds + [(w.goal.value.id, w.goal.value.started + 1)] && w'.goal.Some?
            && w'.goal.value == w.goal.value.(started := w.goal.value.started + 1, updatedAt := w'.goal.value.updatedAt))
      && (w'.goal.Some? && w'.goal.value.phase == Blocked && w'.goal != w.goal <==> current && seen.started >= seen.limit)
      && (w'.goal != w.goal && w'.rounds == w.rounds ==> w'.goal.Some? && w'.goal.value.reason == Some(ROUND_LIMIT))
  {
    hide RoundsOf, Upto, Counted, Remembers;
    assert ValidReason(ROUND_LIMIT);
  }

  predicate Stopped(w: World, id: nat) {
    id in w.used && (w.goal.Some? && w.goal.value.id == id ==> w.goal.value.phase != Active)
  }

  predicate Resumes(a: Action, id: nat) {
    a.Transition? && a.move.Resume? && a.id == id
  }

  lemma StoppedStep(w: World, w': World, a: Action, id: nat)
    requires Inv(w) && Next(w, w', a) && Stopped(w, id) && !Resumes(a, id)
    ensures Stopped(w', id) && RoundsOf(w'.rounds, id) == RoundsOf(w.rounds, id)
  {
    hide Upto, Counted;
    if a.Act? {
      var seen := w.drivers[a.driver];
      RoundAppended(w.rounds, (seen.id, seen.started + 1), id);
    }
    hide RoundsOf, Remembers;
  }

  lemma StepOf(tr: seq<World>, actions: seq<Action>, i: nat)
    requires Behavior(tr, actions) && i + 1 < |tr|
    ensures i < |actions| && Inv(tr[i]) && Next(tr[i], tr[i + 1], actions[i])
  {
    BehaviorKeepsInv(tr, actions, i);
  }

  /** A paused, blocked or finished goal is given no further round, whatever any
    * driver has read before, until somebody resumes it. */
  lemma {:induction false} StoppedGoalsGetNoRounds(tr: seq<World>, actions: seq<Action>, i: nat, j: nat, id: nat)
    requires Behavior(tr, actions) && i <= j < |tr| && Stopped(tr[i], id)
    requires forall k :: i <= k < j ==> !Resumes(actions[k], id)
    ensures Stopped(tr[j], id) && RoundsOf(tr[j].rounds, id) == RoundsOf(tr[i].rounds, id)
    decreases j
  {
    hide *;
    if i < j {
      StoppedGoalsGetNoRounds(tr, actions, i, j - 1, id);
      StepOf(tr, actions, j - 1);
      StoppedStep(tr[j - 1], tr[j], actions[j - 1], id);
    }
  }

  /** A new goal replaces only nothing or a finished one, never in a subagent's
    * conversation, and starts active with all its rounds left; an edit changes
    * only what it was given. */
  lemma CreatedAndEdited(goal: Option<Goal>, subagent: bool, id: nat, revision: nat, objective: string, limit: nat,
                         newObjective: Option<string>, newLimit: Option<nat>, now: int)
    ensures var r := Created(goal, subagent, id, objective, limit, now);
      && (r.Ok? <==> 0 < |objective| <= MAXIMUM_OBJECTIVE && 0 < limit <= MAXIMUM_ROUNDS && !subagent
                     && (goal.Some? ==> goal.value.phase == Complete))
      && (r.Ok? ==> Sound(r.value) && r.value.id == id && r.value.objective == objective && r.value.limit == limit
                    && r.value.phase == Active && r.value.started == 0 && r.value.createdAt == now)
    ensures var r := Edited(goal, id, revision, newObjective, newLimit, now);
      && (r.Ok? <==>
            && (newObjective.Some? || newLimit.Some?)
            && (newObjective.Some? ==> 0 < |newObjective.value| <= MAXIMUM_OBJECTIVE)
            && (newLimit.Some? ==> 0 < newLimit.value <= MAXIMUM_ROUNDS)
            && goal.Some? && goal.value.id == id && goal.value.revision == revision)
      && (r.Ok? ==>
            && var g, g' := goal.value, r.value;
               && (newObjective.Some? ==> g'.objective == newObjective.value)
               && (newObjective.None? ==> g'.objective == g.objective)
               && (newLimit.Some? ==> g'.limit == newLimit.value) && (newLimit.None? ==> g'.limit == g.limit)
               && (g'.id, g'.phase, g'.reason, g'.started, g'.createdAt)
                  == (g.id, g.phase, g.reason, g.started, g.createdAt)
               && g'.revision == g.revision + 1)
  {
  }
}
