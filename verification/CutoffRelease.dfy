/** When an outstanding cancellation may be released: it waits for what runs below
  * its root and for nothing else.
  */
module SubagentRelease {
  import opened Wrappers
  import opened SubagentLineage
  import opened SubagentCutoff

  /** No two activities share a token and none is still to be issued. */
  ghost predicate FreshTokens(running: map<nat, nat>, tokens: nat) {
    && (forall id :: id in running ==> running[id] < tokens)
    && (forall x, y :: x in running && y in running && running[x] == running[y] ==> x == y)
  }

  /** What a cancellation waits for, of the one kind or the other, runs on its
    * descendants only. */
  ghost predicate WaitsBelow(descendants: seq<nat>, held: set<nat>, running: map<nat, nat>, tokens: nat) {
    && (forall token :: token in held ==> token < tokens)
    && (forall id :: id in running && running[id] in held ==> id in descendants)
  }

  ghost predicate Waits(a: Agent, c: Cancellation) {
    && WaitsBelow(c.descendants, c.activityDone, a.activities, a.tokens)
    && WaitsBelow(c.descendants, c.generationDone, a.generations, a.tokens)
  }

  ghost predicate TokensInv(a: Agent) {
    && FreshTokens(a.activities, a.tokens) && FreshTokens(a.generations, a.tokens)
    && (forall c :: c in a.outstanding ==> Waits(a, c))
  }

  lemma IssuedIsFresh(running: map<nat, nat>, tokens: nat, id: nat)
    requires FreshTokens(running, tokens)
    ensures FreshTokens(running[id := tokens], tokens + 1) && FreshTokens(running, tokens + 1)
  {
  }

  lemma IssuedIsNotHeld(descendants: seq<nat>, held: set<nat>, running: map<nat, nat>, tokens: nat, id: nat)
    requires WaitsBelow(descendants, held, running, tokens)
    ensures WaitsBelow(descendants, held, running[id := tokens], tokens + 1)
    ensures WaitsBelow(descendants, held, running, tokens + 1)
  {
  }

  lemma BegunKeeps(a: Agent, id: nat, spawn: Spawn)
    requires TokensInv(a)
    ensures TokensInv(Begun(a, id).(spawn := spawn))
  {
    IssuedIsFresh(a.activities, a.tokens, id);
    IssuedIsFresh(a.generations, a.tokens, id);
    hide FreshTokens, WaitsBelow;
    forall c | c in a.outstanding ensures Waits(Begun(a, id).(spawn := spawn), c) {
      assert Waits(a, c);
      IssuedIsNotHeld(c.descendants, c.activityDone, a.activities, a.tokens, id);
      IssuedIsNotHeld(c.descendants, c.generationDone, a.generations, a.tokens, id);
    }
  }

  lemma RegisteredKeeps(a: Agent, id: nat)
    requires TokensInv(a)
    ensures TokensInv(a.(generations := a.generations[id := a.tokens], tokens := a.tokens + 1))
  {
    var a' := a.(generations := a.generations[id := a.tokens], tokens := a.tokens + 1);
    IssuedIsFresh(a.activities, a.tokens, id);
    IssuedIsFresh(a.generations, a.tokens, id);
    hide FreshTokens, WaitsBelow;
    forall c | c in a.outstanding ensures Waits(a', c) {
      assert Waits(a, c);
      IssuedIsNotHeld(c.descendants, c.activityDone, a.activities, a.tokens, id);
      IssuedIsNotHeld(c.descendants, c.generationDone, a.generations, a.tokens, id);
    }
  }

  lemma HeldBelow(running: map<nat, nat>, tokens: nat, descendants: seq<nat>)
    requires FreshTokens(running, tokens)
    ensures WaitsBelow(descendants, Held(running, descendants), running, tokens)
  {
  }

  lemma PreparedKeeps(a: Agent, a': Agent, root: nat, descendants: seq<nat>)
    requires TokensInv(a) && Next(a, a', Prepare(root, descendants))
    ensures TokensInv(a')
  {
    HeldBelow(a.activities, a.tokens, descendants);
    HeldBelow(a.generations, a.tokens, descendants);
    hide FreshTokens, WaitsBelow, Held, Raised;
  }

  lemma NextKeepsTokens(a: Agent, a': Agent, act: Action)
    requires TokensInv(a) && Next(a, a', act)
    ensures TokensInv(a')
  {
    match act
    case StartChild =>
      assert a' == Begun(a, a.spawn.child).(spawn := NoSpawn);
      hide *;
      BegunKeeps(a, a.spawn.child, NoSpawn);
    case BeginDriver(id) =>
      assert a' == Begun(a, id).(spawn := a.spawn);
      hide *;
      BegunKeeps(a, id, a.spawn);
    case RegisterGeneration(id) => RegisteredKeeps(a, id);
    case Prepare(root, descendants) => hide *; PreparedKeeps(a, a', root, descendants);
    case Release(index) =>
      assert forall c :: c in a'.outstanding ==> c in a.outstanding;
      hide FreshTokens, WaitsBelow, Lowered;
    case _ =>
  }

  lemma {:induction false} BehaviorKeepsTokens(tr: seq<Agent>, actions: seq<Action>, i: nat)
    requires Behavior(tr, actions) && i < |tr|
    ensures TokensInv(tr[i])
  {
    if i > 0 {
      BehaviorKeepsTokens(tr, actions, i - 1);
      NextKeepsTokens(tr[i - 1], tr[i], actions[i - 1]);
    }
  }

  /** A cancellation can be released exactly when nothing runs on what it captured,
    * neither a driver nor a generation.  It never waits for its own root, so a
    * driver may cancel what runs below its own conversation. */
  lemma ReleasableIff(tr: seq<Agent>, actions: seq<Action>, i: nat, index: nat)
    requires Behavior(tr, actions) && i < |tr| && index < |tr[i].outstanding|
    ensures var c := tr[i].outstanding[index];
      && c.root !in c.descendants
      && ((exists a' :: Next(tr[i], a', Release(index))) <==>
            forall id :: id in c.descendants ==> id !in tr[i].activities && id !in tr[i].generations)
  {
    BehaviorKeepsTokens(tr, actions, i);
    BehaviorKeepsInv(tr, actions, i);
    var a := tr[i];
    var c := a.outstanding[index];
    assert Waits(a, c) && CapturedInv(a, c);
    DoneIff(a, c);
    hide Inv, TokensInv, CapturedInv, Waits, AllDone, Behavior;
    var a' := a.(closing := Lowered(a.closing, Members(c)), stopping := Lowered(a.stopping, c.descendants),
                 outstanding := a.outstanding[..index] + a.outstanding[index + 1..]);
    if AllDone(a.activities, c.activityDone) && AllDone(a.generations, c.generationDone) {
      assert Next(a, a', Release(index));
    }
  }

  lemma DoneIff(a: Agent, c: Cancellation)
    requires Waits(a, c) && CapturedInv(a, c)
    ensures AllDone(a.activities, c.activityDone) && AllDone(a.generations, c.generationDone) <==>
      forall id :: id in c.descendants ==> id !in a.activities && id !in a.generations
  {
    hide Distinct, Members;
  }
}
