/** How an attach ends: as completed only once its generation is over and walked
  * to its end, as a cursor reset only for a lost cursor, and never if a gap fill
  * took it past the terminal event it waits for.
  */
module AttachEndings {
  import opened Wrappers
  import opened EventJournal
  import opened ConversationTurns
  import opened ConversationStream
  import opened AttachProtocol
  import opened AttachGuarantees
  import TurnContents

  // ----- the generations of the conversation behind the attach -----

  lemma {:induction false} BehaviorKeepsGenerations(tr: seq<World>, actions: seq<Action>, env: Env, i: nat)
    requires Behavior(tr, actions, env) && i < |tr|
    ensures TurnContents.GenerationsInv(tr[i].c)
  {
    hide *;
    BehaviorStarts(tr, actions, env);
    if i == 0 {
      TurnContents.StartedGenerations(tr[0].c);
    } else {
      BehaviorKeepsGenerations(tr, actions, env, i - 1);
      BehaviorKeepsInv(tr, actions, env, i - 1);
      NextOf(tr, actions, env, i - 1);
      NextKeepsGenerations(tr[i - 1], tr[i], actions[i - 1], env);
    }
  }

  lemma BehaviorStarts(tr: seq<World>, actions: seq<Action>, env: Env)
    requires Behavior(tr, actions, env)
    ensures |tr| == |actions| + 1 && Started(tr[0].c) && tr[0].handlers == map[]
  {
  }

  lemma NextOf(tr: seq<World>, actions: seq<Action>, env: Env, i: nat)
    requires Behavior(tr, actions, env) && i + 1 < |tr|
    ensures i < |actions| && Next(tr[i], tr[i + 1], actions[i], env)
  {
  }

  lemma NextKeepsGenerations(w: World, w': World, a: Action, env: Env)
    requires WorldInv(w, env.allows) && TurnContents.GenerationsInv(w.c) && Next(w, w', a, env)
    ensures TurnContents.GenerationsInv(w'.c)
  {
    hide TurnContents.GenerationsInv, Inv, HandlersInv, ConvInv, Step, Joined, AfterLocal, Enabled;
    if a.Commit? {
      TurnContents.StepKeepsGenerations(w.c, w'.c, a.op, env.encode);
    }
  }

  // ----- completed means over, and walked to the end -----

  /** The generation's terminal event is among the first n of the history. */
  ghost predicate EndBefore(log: seq<Event>, generationId: Id, n: nat) {
    exists t :: 0 <= t < n && t < |log| && IsTerminal(log[t].body) && log[t].generationId == generationId
  }

  lemma EndStays(log: seq<Event>, log': seq<Event>, generationId: Id, n: nat, n': nat)
    requires log <= log' && n <= n'
    ensures EndBefore(log, generationId, n) ==> EndBefore(log', generationId, n')
    ensures n <= |log| ==> (EndBefore(log', generationId, n) <==> EndBefore(log, generationId, n))
  {
    if EndBefore(log, generationId, n) {
      var t :| 0 <= t < n && t < |log| && IsTerminal(log[t].body) && log[t].generationId == generationId;
      assert log'[t] == log[t];
    }
    if n <= |log| && EndBefore(log', generationId, n) {
      var t :| 0 <= t < n && t < |log'| && IsTerminal(log'[t].body) && log'[t].generationId == generationId;
      assert log'[t] == log[t];
    }
  }

  lemma EndedIsBefore(log: seq<Event>, generationId: Id)
    ensures Ended(log, generationId) <==> EndBefore(log, generationId, |log|)
  {
  }

  ghost predicate EndInv(h: Handler, log: seq<Event>) {
    match h.phase
    case Finishing => EndBefore(log, h.generationId, |log|)
    case Replaying(through, purpose) => purpose == Final ==> EndBefore(log, h.generationId, through)
    case Done(outcome) => outcome == Completion ==> EndBefore(log, h.generationId, h.last)
    case _ => true
  }

  lemma EndInvGrows(h: Handler, log: seq<Event>, log': seq<Event>)
    requires EndInv(h, log) && log <= log'
    ensures EndInv(h, log')
  {
    EndStays(log, log', h.generationId, |log|, |log'|);
    EndStays(log, log', h.generationId, h.last, h.last);
    if h.phase.Replaying? {
      EndStays(log, log', h.generationId, h.phase.through, h.phase.through);
    }
  }

  lemma ArrivalEnds(h: Handler, log: seq<Event>, through: nat, purpose: Purpose)
    requires purpose == Final ==> EndBefore(log, h.generationId, through)
    ensures EndInv(EnterReplay(h, through, purpose), log)
  {
    EndStays(log, log, h.generationId, through, if h.last >= through then h.last else through);
  }

  lemma PageEnds(h: Handler, page: Page, log: seq<Event>, allows: Body -> bool, accepts: nat)
    requires EndInv(h, log) && h.phase.Replaying?
    ensures EndInv(AfterPage(h, page, allows, accepts), log)
    ensures AfterPage(h, page, allows, accepts).generationId == h.generationId
  {
    if !page.resetRequired && page.items != [] {
      var w := WalkPage(page.items, h.last, h.phase.through, allows, accepts);
      var h1 := h.(last := w.last, emitted := h.emitted + w.emitted);
      ArrivalEnds(h1, log, h.phase.through, h.phase.purpose);
      hide WalkPage, EndBefore;
    }
  }

  /** The event a take walks is the next one of the history. */
  lemma TakenIsNext(h: Handler, log: seq<Event>, allows: Body -> bool, takes: bool, size: Event -> nat)
    requires HandlerInv(h, log, allows) && h.phase.Following?
    ensures NextFor(h.sub, h.last + 1).Delivered? ==>
      h.last < |log| && NextFor(h.sub, h.last + 1).event == log[h.last] && log[h.last].sequence == h.last + 1
  {
    NextIsGenuine(h.sub, h.last + 1, log, size);
  }

  lemma TakeEnds(h: Handler, log: seq<Event>, allows: Body -> bool, takes: bool, size: Event -> nat)
    requires HandlerInv(h, log, allows) && h.phase.Following?
    ensures EndInv(AfterTake(h, allows, takes, size), log)
    ensures AfterTake(h, allows, takes, size).generationId == h.generationId
  {
    TakenIsNext(h, log, allows, takes, size);
    hide HandlerInv;
    if NextFor(h.sub, h.last + 1).Gap? {
      ArrivalEnds(h.(sub := AfterNext(h.sub, h.last + 1, size)), log, NextFor(h.sub, h.last + 1).minimum - 1, GapFill);
    }
  }

  lemma LocalEnds(h: Handler, step: LocalStep, c: Conversation, env: Env)
    requires EndInv(h, c.ledger.log) && HandlerInv(h, c.ledger.log, env.allows) && Enabled(h, step, c.ledger.rows)
    requires LedgerInv(c.ledger) && TurnContents.GenerationsInv(c) && h.generationId != ""
    requires step.CheckState? ==> step.active == !TurnContents.Settled(c, h.generationId)
    ensures EndInv(AfterLocal(h, step, c.ledger.rows, env), c.ledger.log)
    ensures AfterLocal(h, step, c.ledger.rows, env).generationId == h.generationId
  {
    var log := c.ledger.log;
    match step
    case ReadPage(page, accepts) => hide HandlerInv, EndInv, LedgerInv; PageEnds(h, page, log, env.allows, accepts);
    case CheckState(active) =>
      TurnContents.SettledIffEnded(c, h.generationId);
      EndedIsBefore(log, h.generationId);
      hide HandlerInv, LedgerInv;
    case Take(takes) => hide EndInv, LedgerInv; TakeEnds(h, log, env.allows, takes, env.size);
    case Finish =>
      assert Latest(c.ledger.rows) == |log|;
      ArrivalEnds(h, log, |log|, Final);
      hide HandlerInv, LedgerInv;
    case _ => hide HandlerInv, LedgerInv;
  }

  ghost predicate AllEnd(w: World) {
    forall id :: id in w.handlers ==> EndInv(w.handlers[id], w.c.ledger.log) && w.handlers[id].generationId != ""
  }

  lemma OtherEnds(h: Handler, sub: Sub, attached: bool, log: seq<Event>)
    requires EndInv(h, log)
    ensures EndInv(h.(sub := sub, attached := attached), log)
  {
  }

  lemma JoinedEnds(h: Handler, conv: Option<Conv>, log: seq<Event>, size: Event -> nat)
    requires h.phase.WatermarkCaptured?
    ensures EndInv(Joined(h, conv, size), log) && Joined(h, conv, size).generationId == h.generationId
  {
    var h1 := h.(sub := JoinedSub(h, conv, h.phase.high, size));
    ArrivalEnds(h1, log, Joining(conv, h.phase.high).through, Initial);
    hide Joining, JoinedSub;
  }

  lemma NextEnds(w: World, w': World, a: Action, env: Env)
    requires WorldInv(w, env.allows) && TurnContents.GenerationsInv(w.c) && AllEnd(w) && Next(w, w', a, env)
    requires w.c.ledger.log <= w'.c.ledger.log
    ensures AllEnd(w')
  {
    hide EndInv, Inv, HandlerInv, ConvInv, Step, Joined, AfterLocal, Enabled, TurnContents.GenerationsInv, EnqueueAll;
    var log := w.c.ledger.log;
    forall id | id in w'.handlers
      ensures EndInv(w'.handlers[id], w'.c.ledger.log) && w'.handlers[id].generationId != ""
    {
      if id !in w.handlers {
        NewHandlerEnds(w'.handlers[id], log);
      } else {
        var h := w.handlers[id];
        if a.Commit? {
          EndInvGrows(h, log, w'.c.ledger.log);
        } else if a.Local? && a.id == id {
          LocalStepEnds(w, a.id, a.step, env);
        } else if a.BeginLive? && a.id == id {
          JoinedEnds(h, w.conv, log, env.size);
        } else {
          var h' := w'.handlers[id];
          OtherEnds(h, h'.sub, h'.attached, log);
        }
      }
    }
  }

  lemma NewHandlerEnds(h: Handler, log: seq<Event>)
    requires h.phase.Registered?
    ensures EndInv(h, log)
  {
  }

  lemma LocalStepEnds(w: World, id: nat, step: LocalStep, env: Env)
    requires WorldInv(w, env.allows) && TurnContents.GenerationsInv(w.c) && AllEnd(w) && id in w.handlers
    requires Enabled(w.handlers[id], step, w.c.ledger.rows)
    requires step.CheckState? ==> step.active == !TurnContents.Settled(w.c, w.handlers[id].generationId)
    ensures var h' := AfterLocal(w.handlers[id], step, w.c.ledger.rows, env);
      EndInv(h', w.c.ledger.log) && h'.generationId == w.handlers[id].generationId
  {
    InvHasLedger(w.c);
    hide EndInv, Inv, HandlerInv, ConvInv, AfterLocal, Enabled, TurnContents.GenerationsInv;
    LocalEnds(w.handlers[id], step, w.c, env);
  }

  lemma {:induction false} BehaviorEnds(tr: seq<World>, actions: seq<Action>, env: Env, i: nat)
    requires Behavior(tr, actions, env) && i < |tr|
    ensures AllEnd(tr[i])
  {
    hide *;
    BehaviorStarts(tr, actions, env);
    if i == 0 {
      NoneEnds(tr[0]);
    } else {
      BehaviorEnds(tr, actions, env, i - 1);
      BehaviorKeepsInv(tr, actions, env, i - 1);
      BehaviorKeepsGenerations(tr, actions, env, i - 1);
      NextOf(tr, actions, env, i - 1);
      NextKeepsInv(tr[i - 1], tr[i], actions[i - 1], env);
      NextEnds(tr[i - 1], tr[i], actions[i - 1], env);
    }
  }

  lemma NoneEnds(w: World)
    requires w.handlers == map[]
    ensures AllEnd(w)
  {
  }

  /** An attach that ends as completed has walked past the terminal event of its
    * generation, and what the history holds beyond is no longer the generation's
    * own: only collaboration updates. */
  lemma CompletedIsOver(tr: seq<World>, actions: seq<Action>, env: Env, i: nat, id: nat)
    requires Behavior(tr, actions, env) && i < |tr| && id in tr[i].handlers
    requires tr[i].handlers[id].phase == Done(Completion)
    ensures var h, log := tr[i].handlers[id], tr[i].c.ledger.log;
      && TurnContents.Settled(tr[i].c, h.generationId) && EndBefore(log, h.generationId, h.last)
      && forall s :: h.last <= s < |log| && log[s].generationId == h.generationId ==> log[s].body.Collaboration?
  {
    BehaviorEnds(tr, actions, env, i);
    BehaviorKeepsInv(tr, actions, env, i);
    BehaviorKeepsGenerations(tr, actions, env, i);
    var h, c := tr[i].handlers[id], tr[i].c;
    hide Behavior, HandlersInv, ConvInv, TurnContents.GenerationsInv;
    assert EndInv(h, c.ledger.log);
    TurnContents.SettledIffEnded(c, h.generationId);
    EndIsFinal(c, h.generationId, h.last);
  }

  lemma EndIsFinal(c: Conversation, generationId: Id, n: nat)
    requires Inv(c) && EndBefore(c.ledger.log, generationId, n)
    ensures Ended(c.ledger.log, generationId)
    ensures forall s :: n <= s < |c.ledger.log| && c.ledger.log[s].generationId == generationId ==>
      c.ledger.log[s].body.Collaboration?
  {
    var log := c.ledger.log;
    var t :| 0 <= t < n && t < |log| && IsTerminal(log[t].body) && log[t].generationId == generationId;
    assert TerminalIsFinal(log);
  }

  /** Where the final replay stands: on its way to the watermark `end`, or past
    * it. */
  ghost predicate Finishes(h: Handler, end: nat) {
    if h.phase.Replaying? then h.phase.purpose == Final && h.phase.through == end
    else h.phase == Done(Completion) && h.last >= end
  }

  predicate InFinal(h: Handler) {
    h.phase == Done(Completion) || (h.phase.Replaying? && h.phase.purpose == Final)
  }

  /** A step of the store, the hub or another handler leaves the progress of a
    * handler alone. */
  lemma OthersKeepProgress(w: World, w': World, a: Action, env: Env, id: nat)
    requires Next(w, w', a, env) && id in w'.handlers
    requires !(a.Local? && a.id == id) && !(a.BeginLive? && a.id == id) && !(a.Attach? && a.id == id)
    ensures id in w.handlers
    ensures var h, h' := w.handlers[id], w'.handlers[id];
      && h'.phase == h.phase && h'.last == h.last && h'.after == h.after && h'.emitted == h.emitted
      && h'.generationId == h.generationId
  {
    hide AfterLocal, Joined, EnqueueAll, Step, Enabled, Published, WentLive;
  }

  lemma JoinedIsNotFinal(h: Handler, conv: Option<Conv>, size: Event -> nat)
    requires h.phase.WatermarkCaptured?
    ensures !InFinal(Joined(h, conv, size))
  {
    hide JoinedSub, Joining;
  }

  lemma LocalReachesFinal(h: Handler, step: LocalStep, rows: seq<Event>, env: Env)
    requires Enabled(h, step, rows) && InFinal(AfterLocal(h, step, rows, env))
    ensures step.Finish? ==> Finishes(AfterLocal(h, step, rows, env), Latest(rows))
    ensures !step.Finish? ==>
      InFinal(h) && forall end: nat :: Finishes(h, end) ==> Finishes(AfterLocal(h, step, rows, env), end)
  {
    match step
    case ReadPage(page, accepts) => hide WalkPage, IsPage;
    case Take(takes) => hide AfterNext, NextFor;
    case _ =>
  }

  /** Only a Finish, or a page of the final replay, leads there. */
  lemma FinishedStep(w: World, w': World, a: Action, env: Env, id: nat)
    requires Next(w, w', a, env) && id in w'.handlers && InFinal(w'.handlers[id])
    ensures a == Local(id, Finish) ==> Finishes(w'.handlers[id], Latest(w.c.ledger.rows))
    ensures a != Local(id, Finish) ==>
      && id in w.handlers && InFinal(w.handlers[id])
      && forall end: nat :: Finishes(w.handlers[id], end) ==> Finishes(w'.handlers[id], end)
  {
    if a.Local? && a.id == id {
      hide Finishes, InFinal, AfterLocal, Enabled, Step;
      LocalReachesFinal(w.handlers[id], a.step, w.c.ledger.rows, env);
    } else if a.BeginLive? && a.id == id {
      hide Finishes, Joined, InFinal;
      JoinedIsNotFinal(w.handlers[id], w.conv, env.size);
    } else if !(a.Attach? && a.id == id) {
      hide Next;
      OthersKeepProgress(w, w', a, env, id);
    }
  }

  ghost predicate FinishedAt(tr: seq<World>, actions: seq<Action>, j: nat, h: Handler, id: nat) {
    j < |actions| && j < |tr| && actions[j] == Local(id, Finish) && Finishes(h, Latest(tr[j].c.ledger.rows))
  }

  /** It ends as completed only by a Finish, which reads the watermark once more,
    * and after walking at least that far. */
  lemma {:induction false} FinishedThrough(tr: seq<World>, actions: seq<Action>, env: Env, i: nat, id: nat)
    returns (j: nat)
    requires Behavior(tr, actions, env) && i < |tr| && id in tr[i].handlers && InFinal(tr[i].handlers[id])
    ensures j < i && FinishedAt(tr, actions, j, tr[i].handlers[id], id)
  {
    hide Behavior, Finishes, InFinal, Next;
    BehaviorStarts(tr, actions, env);
    assert i > 0;
    NextOf(tr, actions, env, i - 1);
    FinishedStep(tr[i - 1], tr[i], actions[i - 1], env, id);
    if actions[i - 1] == Local(id, Finish) {
      j := i - 1;
    } else {
      j := FinishedThrough(tr, actions, env, i - 1, id);
    }
  }

  // ----- when the live loop ends -----

  /** With its next event in the queue and a peer that takes it, a following
    * handler walks and delivers exactly that event, and leaves the live loop
    * exactly when it is the terminal event of its own generation. */
  lemma NextIsDelivered(tr: seq<World>, actions: seq<Action>, env: Env, i: nat, id: nat)
    requires Behavior(tr, actions, env) && i < |actions| && actions[i] == Local(id, Take(true))
    requires id in tr[i].handlers && Listening(tr[i].handlers[id])
    requires tr[i].handlers[id].last + 1 in tr[i].handlers[id].sub.pending
    ensures id in tr[i + 1].handlers && tr[i].handlers[id].last < |tr[i].c.ledger.log|
    ensures var h, h', e := tr[i].handlers[id], tr[i + 1].handlers[id], tr[i].c.ledger.log[tr[i].handlers[id].last];
      && h'.last == h.last + 1
      && h'.emitted == h.emitted + (if env.allows(e.body) then [e] else [])
      && h'.phase == if IsTerminal(e.body) && e.generationId == h.generationId then Finishing else Following
  {
    hide Behavior, Next, WorldInv, Listening;
    BehaviorStarts(tr, actions, env);
    BehaviorKeepsInv(tr, actions, env, i);
    NextOf(tr, actions, env, i);
    LocalOf(tr[i], tr[i + 1], id, Take(true), env);
    DeliveredTake(tr[i].handlers[id], tr[i].c.ledger.log, env);
  }

  lemma LocalOf(w: World, w': World, id: nat, step: LocalStep, env: Env)
    requires Next(w, w', Local(id, step), env) && WorldInv(w, env.allows)
    ensures id in w.handlers && id in w'.handlers && Enabled(w.handlers[id], step, w.c.ledger.rows)
    ensures w'.handlers[id] == AfterLocal(w.handlers[id], step, w.c.ledger.rows, env)
    ensures HandlerInv(w.handlers[id], w.c.ledger.log, env.allows) && w'.c == w.c
  {
    hide AfterLocal, HandlerInv, Inv, ConvInv;
  }

  lemma DeliveredTake(h: Handler, log: seq<Event>, env: Env)
    requires HandlerInv(h, log, env.allows) && h.phase.Following? && Listening(h) && h.last + 1 in h.sub.pending
    ensures h.last < |log|
    ensures var h', e := AfterTake(h, env.allows, true, env.size), log[h.last];
      && h'.last == h.last + 1
      && h'.emitted == h.emitted + (if env.allows(e.body) then [e] else [])
      && h'.phase == if IsTerminal(e.body) && e.generationId == h.generationId then Finishing else Following
  {
    TakenIsNext(h, log, env.allows, true, env.size);
    hide HandlerInv;
    assert h.emitted + [] == h.emitted;
  }

  /** The live loop leaves a handler that its queue cannot serve where it was, but
    * for a replay up to a later event it holds, a reset, or a close. */
  lemma NothingToTake(tr: seq<World>, actions: seq<Action>, env: Env, i: nat, id: nat, takes: bool)
    requires Behavior(tr, actions, env) && i < |actions| && actions[i] == Local(id, Take(takes))
    requires id in tr[i].handlers && Listening(tr[i].handlers[id])
    requires tr[i].handlers[id].last + 1 !in tr[i].handlers[id].sub.pending
    ensures id in tr[i + 1].handlers
    ensures var h, h' := tr[i].handlers[id], tr[i + 1].handlers[id];
      && h'.last == h.last && h'.emitted == h.emitted && h'.sub == h.sub
      && (h'.phase == Following <==> h.sub.pending == map[] || exists s :: s in h.sub.pending && s <= h.last)
      && (h'.phase != Following ==>
            && h'.phase.Replaying? && h'.phase.purpose == GapFill && h'.phase.through + 1 in h.sub.pending
            && forall s :: s in h.sub.pending ==> s > h'.phase.through > h.last)
  {
    NextOf(tr, actions, env, i);
    var h := tr[i].handlers[id];
    hide Behavior;
    if h.sub.pending != map[] {
      assert h.sub.pending.Keys != {} by {
        var s :| s in h.sub.pending;
        assert s in h.sub.pending.Keys;
      }
    }
  }

  // ----- the cursor it began with -----

  /** A captured watermark and oldest sequence are those of an earlier state. */
  ghost predicate CapturedAt(tr: seq<World>, j: nat, h: Handler) {
    j < |tr| && h.phase == WatermarkCaptured(Latest(tr[j].c.ledger.rows), Earliest(tr[j].c.ledger.rows))
  }

  lemma JoinedIsNotCaptured(h: Handler, conv: Option<Conv>, size: Event -> nat)
    requires h.phase.WatermarkCaptured?
    ensures !Joined(h, conv, size).phase.WatermarkCaptured?
  {
    hide JoinedSub, Joining;
  }

  lemma LocalToCaptured(h: Handler, step: LocalStep, rows: seq<Event>, env: Env)
    requires Enabled(h, step, rows) && AfterLocal(h, step, rows, env).phase.WatermarkCaptured?
    ensures step == Capture && AfterLocal(h, step, rows, env).phase == WatermarkCaptured(Latest(rows), Earliest(rows))
  {
    match step
    case ReadPage(page, accepts) => hide WalkPage, IsPage;
    case Take(takes) => hide AfterNext, NextFor;
    case _ =>
  }

  lemma CaptureStep(w: World, w': World, a: Action, env: Env, id: nat)
    requires Next(w, w', a, env) && id in w'.handlers && w'.handlers[id].phase.WatermarkCaptured?
    ensures id in w.handlers
    ensures if a == Local(id, Capture)
            then w'.handlers[id].phase == WatermarkCaptured(Latest(w.c.ledger.rows), Earliest(w.c.ledger.rows))
            else w.handlers[id].phase == w'.handlers[id].phase
  {
    if a.Local? && a.id == id {
      hide AfterLocal, Enabled, Step, Latest, Earliest;
      LocalToCaptured(w.handlers[id], a.step, w.c.ledger.rows, env);
    } else if a.BeginLive? && a.id == id {
      hide Joined;
      JoinedIsNotCaptured(w.handlers[id], w.conv, env.size);
    } else if !(a.Attach? && a.id == id) {
      hide Next;
      OthersKeepProgress(w, w', a, env, id);
    }
  }

  lemma {:induction false} CaptureIsRead(tr: seq<World>, actions: seq<Action>, env: Env, i: nat, id: nat)
    returns (j: nat)
    requires Behavior(tr, actions, env) && i < |tr| && id in tr[i].handlers
    requires tr[i].handlers[id].phase.WatermarkCaptured?
    ensures j < i && j < |actions| && actions[j] == Local(id, Capture) && CapturedAt(tr, j, tr[i].handlers[id])
  {
    hide Behavior, Next;
    BehaviorStarts(tr, actions, env);
    NextOf(tr, actions, env, i - 1);
    CaptureStep(tr[i - 1], tr[i], actions[i - 1], env, id);
    if actions[i - 1] == Local(id, Capture) {
      j := i - 1;
    } else {
      j := CaptureIsRead(tr, actions, env, i - 1, id);
    }
  }

  /** Joining turns a handler away exactly when its cursor was lost in the state
    * whose watermarks it captured; any other replays from its cursor at least to
    * that watermark, or has nothing to replay. */
  lemma JoinRefusesLostCursors(tr: seq<World>, actions: seq<Action>, env: Env, i: nat, id: nat) returns (j: nat)
    requires Behavior(tr, actions, env) && i < |actions| && actions[i] == BeginLive(id)
    ensures j < i && actions[j] == Local(id, Capture)
    ensures id in tr[i].handlers && id in tr[i + 1].handlers
    ensures var rows, h, h' := tr[j].c.ledger.rows, tr[i].handlers[id], tr[i + 1].handlers[id];
      && (h'.phase == Done(CursorExpiredReset) <==> CursorLost(rows, h.after))
      && (h'.phase != Done(CursorExpiredReset) ==>
            && h'.last == h.last == h.after && h'.emitted == []
            && if h'.phase == Checking then h'.last >= Latest(rows)
               else h'.phase.Replaying? && h'.phase.purpose == Initial && h'.phase.through >= Latest(rows))
  {
    NextOf(tr, actions, env, i);
    j := CaptureIsRead(tr, actions, env, i, id);
    BehaviorKeepsInv(tr, actions, env, i);
    var w, h := tr[i], tr[i].handlers[id];
    assert HandlerInv(h, w.c.ledger.log, env.allows);
    hide Behavior, HandlersInv, Inv, JoinedSub, ConvInv;
    JoinReaches(w.conv, h.phase.high);
  }

  lemma JoinReaches(conv: Option<Conv>, high: nat)
    ensures Joining(conv, high).through >= high
  {
    hide WentLive;
  }

  // ----- a gap fill past the end -----

  /** In the live loop, or in a replay that returns to it. */
  predicate Live(h: Handler) {
    h.phase.Following? || (h.phase.Replaying? && h.phase.purpose == GapFill)
  }

  ghost predicate Passed(h: Handler, log: seq<Event>) {
    EndBefore(log, h.generationId, h.last)
  }

  lemma TakeToLive(h: Handler, log: seq<Event>, env: Env, takes: bool)
    requires HandlerInv(h, log, env.allows) && h.phase.Following?
    requires Live(AfterTake(h, env.allows, takes, env.size))
    ensures Passed(AfterTake(h, env.allows, takes, env.size), log) ==> Passed(h, log)
  {
    TakenIsNext(h, log, env.allows, takes, env.size);
    var h' := AfterTake(h, env.allows, takes, env.size);
    hide HandlerInv;
    assert h'.last == h.last || (h'.last == h.last + 1 && h.last < |log|
      && !(IsTerminal(log[h.last].body) && log[h.last].generationId == h.generationId));
    hide AfterTake, NextFor, IsTerminal;
  }

  lemma CheckedIsNotPassed(h: Handler, c: Conversation)
    requires TurnContents.GenerationsInv(c) && h.generationId != ""
    ensures Passed(h, c.ledger.log) ==> TurnContents.Settled(c, h.generationId)
  {
    TurnContents.SettledIffEnded(c, h.generationId);
    hide TurnContents.Settled, TurnContents.GenerationsInv;
  }

  /** How a local step leads into the live loop with the end passed. */
  lemma LocalToLive(h: Handler, step: LocalStep, c: Conversation, env: Env)
    requires HandlerInv(h, c.ledger.log, env.allows) && Enabled(h, step, c.ledger.rows)
    requires TurnContents.GenerationsInv(c) && h.generationId != ""
    requires step.CheckState? ==> step.active == !TurnContents.Settled(c, h.generationId)
    requires Live(AfterLocal(h, step, c.ledger.rows, env)) && Passed(AfterLocal(h, step, c.ledger.rows, env), c.ledger.log)
    ensures Live(h) && (Passed(h, c.ledger.log) || step.ReadPage?)
  {
    match step
    case CheckState(active) => CheckedIsNotPassed(h.(phase := if active then Following else Finishing), c); hide Passed;
    case Take(takes) => TakeToLive(h, c.ledger.log, env, takes); hide HandlerInv, Passed, TurnContents.GenerationsInv;
    case ReadPage(page, accepts) => hide WalkPage, IsPage, Passed, HandlerInv, TurnContents.GenerationsInv;
    case _ => hide Passed, HandlerInv, TurnContents.GenerationsInv;
  }

  /** A step of a gap fill that walks past the terminal event. */
  ghost predicate Crosses(tr: seq<World>, actions: seq<Action>, j: nat, id: nat) {
    && j < |actions| && j + 1 < |tr| && actions[j].Local? && actions[j].id == id && actions[j].step.ReadPage?
    && id in tr[j].handlers && id in tr[j + 1].handlers && Live(tr[j].handlers[id])
    && !Passed(tr[j].handlers[id], tr[j].c.ledger.log) && Passed(tr[j + 1].handlers[id], tr[j + 1].c.ledger.log)
  }

  lemma LiveIsWalked(h: Handler, log: seq<Event>, allows: Body -> bool)
    requires HandlerInv(h, log, allows) && Live(h)
    ensures h.last <= |log|
  {
  }

  lemma LiveBefore(w: World, w': World, a: Action, env: Env, id: nat)
    requires Next(w, w', a, env) && WorldInv(w, env.allows) && TurnContents.GenerationsInv(w.c) && AllEnd(w)
    requires w.c.ledger.log <= w'.c.ledger.log
    requires id in w'.handlers && Live(w'.handlers[id]) && Passed(w'.handlers[id], w'.c.ledger.log)
    ensures id in w.handlers && Live(w.handlers[id])
    ensures Passed(w.handlers[id], w.c.ledger.log) || (a.Local? && a.id == id && a.step.ReadPage?)
  {
    hide EndInv, TurnContents.GenerationsInv, Inv, ConvInv, HandlerInv, EndBefore;
    if a.Local? && a.id == id {
      LocalOf(w, w', id, a.step, env);
      assert a.step.CheckState? ==> a.step.active == !TurnContents.Settled(w.c, w.handlers[id].generationId);
      hide AfterLocal, Enabled, Live, Passed, TurnContents.Settled, Step;
      LocalToLive(w.handlers[id], a.step, w.c, env);
    } else if a.BeginLive? && a.id == id {
      JoinedIsNotLive(w.handlers[id], w.conv, env.size);
      hide Joined;
    } else if !(a.Attach? && a.id == id) {
      OthersKeepProgress(w, w', a, env, id);
      LiveIsWalked(w.handlers[id], w.c.ledger.log, env.allows);
      EndStays(w.c.ledger.log, w'.c.ledger.log, w.handlers[id].generationId, w.handlers[id].last, w.handlers[id].last);
      hide Next;
    } else {
      hide Passed, Step;
    }
  }

  lemma JoinedIsNotLive(h: Handler, conv: Option<Conv>, size: Event -> nat)
    requires h.phase.WatermarkCaptured?
    ensures !Live(Joined(h, conv, size))
  {
    hide JoinedSub, Joining;
  }

  /** A handler back in the live loop after its terminal event got past it in a
    * gap fill. */
  lemma {:induction false} PassedByGapFill(tr: seq<World>, actions: seq<Action>, env: Env, n: nat, id: nat)
    returns (j: nat)
    requires Behavior(tr, actions, env) && n < |tr| && id in tr[n].handlers
    requires Live(tr[n].handlers[id]) && Passed(tr[n].handlers[id], tr[n].c.ledger.log)
    ensures j < n && Crosses(tr, actions, j, id)
  {
    hide Behavior, Next, WorldInv, AllEnd, Live, Passed, TurnContents.GenerationsInv, Extends;
    BehaviorStarts(tr, actions, env);
    NextOf(tr, actions, env, n - 1);
    BehaviorKeepsInv(tr, actions, env, n - 1);
    BehaviorKeepsGenerations(tr, actions, env, n - 1);
    BehaviorEnds(tr, actions, env, n - 1);
    NextKeepsInv(tr[n - 1], tr[n], actions[n - 1], env);
    LiveBefore(tr[n - 1], tr[n], actions[n - 1], env, id);
    if Passed(tr[n - 1].handlers[id], tr[n - 1].c.ledger.log) {
      j := PassedByGapFill(tr, actions, env, n - 1, id);
    } else {
      j := n - 1;
    }
  }

  /** From a passed end the live loop never comes to an end as completed: there is
    * no second terminal event to take. */
  ghost predicate Stuck(h: Handler, log: seq<Event>) {
    (Live(h) && Passed(h, log)) || (h.phase.Done? && h.phase.outcome != Completion)
  }

  lemma TakeStaysStuck(h: Handler, log: seq<Event>, env: Env, takes: bool)
    requires HandlerInv(h, log, env.allows) && h.phase.Following? && Passed(h, log) && TerminalIsFinal(log)
    ensures Stuck(AfterTake(h, env.allows, takes, env.size), log)
  {
    TakenIsNext(h, log, env.allows, takes, env.size);
    hide HandlerInv;
    var t :| 0 <= t < h.last && t < |log| && IsTerminal(log[t].body) && log[t].generationId == h.generationId;
    if NextFor(h.sub, h.last + 1).Delivered? {
      assert !(IsTerminal(log[h.last].body) && log[h.last].generationId == h.generationId);
    }
    EndStays(log, log, h.generationId, h.last, h.last + 1);
    hide TerminalIsFinal, EndBefore;
  }

  lemma PageStaysStuck(h: Handler, page: Page, log: seq<Event>, allows: Body -> bool, accepts: nat)
    requires h.phase.Replaying? && h.phase.purpose == GapFill && Passed(h, log)
    requires !page.resetRequired && page.items != [] ==>
      h.last <= WalkPage(page.items, h.last, h.phase.through, allows, accepts).last
    ensures Stuck(AfterPage(h, page, allows, accepts), log)
  {
    if !page.resetRequired && page.items != [] {
      EndStays(log, log, h.generationId, h.last, WalkPage(page.items, h.last, h.phase.through, allows, accepts).last);
    }
    hide WalkPage, EndBefore;
  }

  lemma LocalStaysStuck(h: Handler, step: LocalStep, c: Conversation, env: Env)
    requires HandlerInv(h, c.ledger.log, env.allows) && Enabled(h, step, c.ledger.rows)
    requires LedgerInv(c.ledger) && TerminalIsFinal(c.ledger.log) && Stuck(h, c.ledger.log)
    ensures Stuck(AfterLocal(h, step, c.ledger.rows, env), c.ledger.log)
  {
    match step
    case Take(takes) => hide Stuck, LedgerInv; TakeStaysStuck(h, c.ledger.log, env, takes);
    case ReadPage(page, accepts) =>
      if !page.resetRequired && page.items != [] {
        WalkGoesForward(page.items, h.last, h.phase.through, env.allows, accepts);
      }
      hide HandlerInv, LedgerInv, TerminalIsFinal;
      PageStaysStuck(h, page, c.ledger.log, env.allows, accepts);
      hide AfterPage, Stuck;
    case _ => hide HandlerInv, LedgerInv, TerminalIsFinal, Passed;
  }

  lemma {:induction false} WalkGoesForward(items: seq<Event>, last: nat, through: nat, allows: Body -> bool, accepts: nat)
    ensures last <= WalkPage(items, last, through, allows, accepts).last
  {
    if items != [] && items[0].sequence <= through && items[0].sequence == last + 1 {
      var inner := if allows(items[0].body) then accepts - 1 else accepts;
      if inner >= 0 {
        WalkGoesForward(items[1..], last + 1, through, allows, inner);
      }
    }
  }

  lemma StuckStep(w: World, w': World, a: Action, env: Env, id: nat)
    requires Next(w, w', a, env) && WorldInv(w, env.allows) && w.c.ledger.log <= w'.c.ledger.log
    requires id in w.handlers && Stuck(w.handlers[id], w.c.ledger.log)
    ensures id in w'.handlers && Stuck(w'.handlers[id], w'.c.ledger.log)
  {
    if a.Local? && a.id == id {
      LocalOf(w, w', id, a.step, env);
      InvHasFinal(w.c);
      hide AfterLocal, Enabled, Stuck, Step, WorldInv, Next, HandlerInv;
      LocalStaysStuck(w.handlers[id], a.step, w.c, env);
    } else {
      StaysThere(w, w', a, env, id);
      hide WorldInv, Next;
      OthersKeepProgress(w, w', a, env, id);
      EndStays(w.c.ledger.log, w'.c.ledger.log, w.handlers[id].generationId, w.handlers[id].last, w.handlers[id].last);
    }
  }

  lemma InvHasFinal(c: Conversation)
    requires Inv(c)
    ensures LedgerInv(c.ledger) && TerminalIsFinal(c.ledger.log)
  {
  }

  lemma StaysThere(w: World, w': World, a: Action, env: Env, id: nat)
    requires Next(w, w', a, env) && id in w.handlers && Stuck(w.handlers[id], w.c.ledger.log)
    ensures id in w'.handlers && !(a.BeginLive? && a.id == id) && !(a.Attach? && a.id == id)
  {
    hide AfterLocal, Joined, EnqueueAll, Step, Enabled, Published, WentLive, Passed;
  }

  lemma {:induction false} StuckForEver(tr: seq<World>, actions: seq<Action>, env: Env, n: nat, m: nat, id: nat)
    requires Behavior(tr, actions, env) && n <= m < |tr| && id in tr[n].handlers
    requires Stuck(tr[n].handlers[id], tr[n].c.ledger.log)
    ensures id in tr[m].handlers && Stuck(tr[m].handlers[id], tr[m].c.ledger.log)
    decreases m
  {
    hide *;
    if n < m {
      BehaviorStarts(tr, actions, env);
      StuckForEver(tr, actions, env, n, m - 1, id);
      NextOf(tr, actions, env, m - 1);
      BehaviorKeepsInv(tr, actions, env, m - 1);
      NextKeepsInv(tr[m - 1], tr[m], actions[m - 1], env);
      StuckStep(tr[m - 1], tr[m], actions[m - 1], env, id);
    }
  }

  /** The live loop misses its end exactly when a gap fill walks past the
    * terminal event of the generation.  Then the attach never ends as completed. */
  lemma EndIsMissedIff(tr: seq<World>, actions: seq<Action>, env: Env, n: nat, id: nat)
    requires Behavior(tr, actions, env) && n < |tr| && id in tr[n].handlers && Live(tr[n].handlers[id])
    ensures EndBefore(tr[n].c.ledger.log, tr[n].handlers[id].generationId, tr[n].handlers[id].last) <==>
      exists j :: 0 <= j < n && Crosses(tr, actions, j, id)
    ensures EndBefore(tr[n].c.ledger.log, tr[n].handlers[id].generationId, tr[n].handlers[id].last) ==>
      forall m :: n <= m < |tr| ==> id in tr[m].handlers && tr[m].handlers[id].phase != Done(Completion)
  {
    var h, log := tr[n].handlers[id], tr[n].c.ledger.log;
    if Passed(h, log) {
      var j := PassedByGapFill(tr, actions, env, n, id);
      forall m | n <= m < |tr| ensures id in tr[m].handlers && tr[m].handlers[id].phase != Done(Completion) {
        StuckForEver(tr, actions, env, n, m, id);
      }
    }
    if exists j :: 0 <= j < n && Crosses(tr, actions, j, id) {
      var j :| 0 <= j < n && Crosses(tr, actions, j, id);
      CrossedIsStuck(tr, actions, env, j, id);
      StuckForEver(tr, actions, env, j + 1, n, id);
    }
  }

  lemma CrossedIsStuck(tr: seq<World>, actions: seq<Action>, env: Env, j: nat, id: nat)
    requires Behavior(tr, actions, env) && Crosses(tr, actions, j, id)
    ensures Stuck(tr[j + 1].handlers[id], tr[j + 1].c.ledger.log)
  {
    NextOf(tr, actions, env, j);
    hide Behavior, WalkPage, IsPage;
  }

  // ----- a run in which that happens -----

  const END: Event := Event(1, "g", "a", Cancelled, PAYLOAD, 1)
  const LATE: Event := Event(2, "g", "a", EventJournal.Collaboration, PAYLOAD, 1)
  const STOPPED: Message := ANSWER.(status := MessageStopped, revision := 2)
  const OVER: Conversation := Conversation(Idle, "", "", 2, 2, [QUESTION, STOPPED], Ledger([END], [END]))
  const UPDATED: Conversation := OVER.(ledger := Ledger([END, LATE], [END, LATE]))
  const END_PAGE: Page := Page([END], 1, 2, 1, true, false, ByteBudget)
  const QUEUED: nat := PAYLOAD + EVENT_ROW_OVERHEAD
  const HELD: Sub := LIVE_SUB.(pending := map[2 := LATE], queueBytes := QUEUED)

  function MissedWorld(i: nat): World {
    var idle, held := Conv(0, true, map[]), Conv(0, true, map[2 := LATE]);
    var filling := FOLLOWER.(sub := HELD, phase := Replaying(1, GapFill));
    var back := FOLLOWER.(sub := HELD, last := 1, emitted := [END]);
    var past := FOLLOWER.(sub := LIVE_SUB, last := 2, emitted := [END, LATE]);
    if i == 0 then World(EMPTY, None, false, map[])
    else if i == 1 then World(ASKED, None, false, map[])
    else if i == 2 then World(ASKED, Some(NEW_CONV), false, map[0 := ARRIVING])
    else if i == 3 then World(ASKED, Some(NEW_CONV), false, map[0 := ARRIVING.(phase := WatermarkCaptured(0, 0))])
    else if i == 4 then World(ASKED, Some(idle), false, map[0 := FOLLOWER.(phase := Checking)])
    else if i == 5 then World(ASKED, Some(idle), false, map[0 := FOLLOWER])
    else if i == 6 then World(OVER, Some(idle), false, map[0 := FOLLOWER])
    else if i == 7 then World(UPDATED, Some(idle), false, map[0 := FOLLOWER])
    else if i == 8 then World(UPDATED, Some(held), false, map[0 := FOLLOWER.(sub := HELD)])
    else if i == 9 then World(UPDATED, Some(held), false, map[0 := filling])
    else if i == 10 then World(UPDATED, Some(held), false, map[0 := back])
    else if i == 11 then World(UPDATED, Some(held), false, map[0 := past])
    else
      World(UPDATED, Some(Conv(2, true, map[])), false,
            map[0 := past.(sub := LIVE_SUB.(pending := map[1 := END, 2 := LATE], queueBytes := 2 * QUEUED))])
  }

  const MISSED_ACTIONS: seq<Action> :=
    [Commit(OpBegin("u", "g", "a", "hi")), Attach(0, 0, "g"), Local(0, Capture), BeginLive(0), Local(0, CheckState(true)),
     Commit(OpComplete("g", "a", MessageStopped, "", 1)), Commit(OpCollaborate("g", "a", 1)), Publish(2),
     Local(0, Take(true)), Local(0, ReadPage(END_PAGE, 1)), Local(0, Take(true)), Publish(1)]

  lemma MissedCompletion()
    ensures Step(ASKED, OVER, OpComplete("g", "a", MessageStopped, "", 1), PLAIN.encode)
  {
    var event := END.(sequence := 0);
    FirstAppend(END);
    assert CompletionBodies([], MessageStopped) == [Cancelled];
    var l := Ledger([END], [END]);
    assert [] + [END] == [END];
    assert Emit(Ledger([], []), event) == Ok(l);
    assert [Cancelled][1..] == [];
    assert EmitAll(Ledger([], []), "g", "a", [Cancelled], 1, PLAIN.encode) == EmitAll(l, "g", "a", [], 1, PLAIN.encode);
    assert IndexOf(ASKED.messages, "a") == 1;
    hide Appended, Emit, EmitAll, CompletionBodies;
    assert SettledRuns([], MessageStopped, "", 1) == [];
    assert ASKED.messages[1 := STOPPED] == [QUESTION, STOPPED];
  }

  lemma MissedUpdate()
    ensures Step(OVER, UPDATED, OpCollaborate("g", "a", 1), PLAIN.encode)
  {
    var rows := [END, LATE];
    assert [END] + [LATE] == rows;
    UnexpiredAll(rows, 1 - MAXIMUM_REPLAY_AGE);
    LightRowsStay(rows);
    hide Unexpired, Trimmed;
    assert Appended([END], LATE.(sequence := 0)) == rows;
  }

  lemma MissedPublish()
    ensures Next(MissedWorld(7), MissedWorld(8), Publish(2), PLAIN)
  {
    var w, w' := MissedWorld(7), MissedWorld(8);
    assert Published(w.conv.value, LATE) == (Conv(0, true, map[2 := LATE]), [LATE]);
    assert [LATE][..0] == [];
    assert EnqueueAll(LIVE_SUB, [LATE], PLAIN.size) == HELD;
    assert Fanned(w.handlers, [LATE], PLAIN.size) == w'.handlers;
  }

  lemma MissedTake()
    ensures Next(MissedWorld(8), MissedWorld(9), Local(0, Take(true)), PLAIN)
  {
    var w, w' := MissedWorld(8), MissedWorld(9);
    assert HELD.pending.Keys == {2};
    assert NextFor(HELD, 1) == Gap(2);
    assert w'.handlers == w.handlers[0 := w'.handlers[0]];
  }

  lemma EndPageIsPage()
    ensures IsPage([END, LATE], 0, END_PAGE)
    ensures WalkPage([END], 0, 1, PLAIN.allows, 1) == Walk(1, [END], WalkedAll)
  {
    assert After([END, LATE], 0) == [END, LATE];
    assert [END] <= [END, LATE];
    assert [END][1..] == [];
    assert WalkPage([], 1, 1, PLAIN.allows, 0) == Walk(1, [], WalkedAll);
  }

  lemma MissedRead()
    ensures Next(MissedWorld(9), MissedWorld(10), Local(0, ReadPage(END_PAGE, 1)), PLAIN)
  {
    var w, w' := MissedWorld(9), MissedWorld(10);
    EndPageIsPage();
    hide IsPage, WalkPage, TurnContents.Settled;
    assert [] + [END] == [END];
    assert AfterLocal(w.handlers[0], ReadPage(END_PAGE, 1), w.c.ledger.rows, PLAIN) == w'.handlers[0];
    assert w'.handlers == w.handlers[0 := w'.handlers[0]];
  }

  lemma MissedTakeLate()
    ensures Next(MissedWorld(10), MissedWorld(11), Local(0, Take(true)), PLAIN)
  {
    var w, w' := MissedWorld(10), MissedWorld(11);
    assert NextFor(HELD, 2) == ConversationStream.Delivered(LATE);
    assert HELD.pending - {2} == map[];
    assert [END] + [LATE] == [END, LATE];
    hide TurnContents.Settled;
    assert AfterLocal(w.handlers[0], Take(true), w.c.ledger.rows, PLAIN) == w'.handlers[0];
    assert w'.handlers == w.handlers[0 := w'.handlers[0]];
  }

  lemma MissedPublishLate()
    ensures Next(MissedWorld(11), MissedWorld(12), Publish(1), PLAIN)
  {
    var w, w' := MissedWorld(11), MissedWorld(12);
    var mid := Conv(1, true, map[2 := LATE]);
    assert mid.pending - {2} == map[];
    assert Drained(Conv(2, true, map[])) == (Conv(2, true, map[]), []);
    assert mid.(published := 2, pending := mid.pending - {2}) == Conv(2, true, map[]);
    assert [LATE] + [] == [LATE] && [END] + [LATE] == [END, LATE];
    assert Drained(mid) == (Conv(2, true, map[]), [LATE]);
    assert w.conv.value.(published := 1) == mid;
    assert Published(w.conv.value, END) == (Conv(2, true, map[]), [END, LATE]);
    TwoQueued();
    assert Fanned(w.handlers, [END, LATE], PLAIN.size) == w'.handlers;
  }

  lemma TwoQueued()
    ensures EnqueueAll(LIVE_SUB, [END, LATE], PLAIN.size)
      == LIVE_SUB.(pending := map[1 := END, 2 := LATE], queueBytes := 2 * QUEUED)
  {
    assert [END, LATE][..1] == [END] && [END][..0] == [];
    assert EnqueueAll(LIVE_SUB, [END], PLAIN.size) == LIVE_SUB.(pending := map[1 := END], queueBytes := QUEUED);
  }

  lemma MissedBegin()
    ensures Next(MissedWorld(3), MissedWorld(4), BeginLive(0), PLAIN)
  {
    var w, w' := MissedWorld(3), MissedWorld(4);
    EmptyQueueSplits(0);
    assert Joining(w.conv, 0) == Join(w'.conv, [], 0);
    assert Bytes(map[], PLAIN.size) == 0;
    assert JoinedSub(w.handlers[0], w.conv, 0, PLAIN.size) == w'.handlers[0].sub;
    assert Joined(w.handlers[0], w.conv, PLAIN.size) == w'.handlers[0];
    assert Fanned(w.handlers, [], PLAIN.size) == w.handlers;
    assert w'.handlers == w.handlers[0 := w'.handlers[0]];
  }

  lemma MissedStep(i: nat)
    requires i < 12
    ensures Next(MissedWorld(i), MissedWorld(i + 1), MISSED_ACTIONS[i], PLAIN)
  {
    FirstQuestion();
    hide Step;
    if i == 3 { MissedBegin(); }
    else if i == 5 { MissedCompletion(); }
    else if i == 6 { MissedUpdate(); }
    else if i == 7 { MissedPublish(); }
    else if i == 8 { MissedTake(); }
    else if i == 9 { MissedRead(); }
    else if i == 10 { MissedTakeLate(); }
    else if i == 11 { MissedPublishLate(); }
    else { assert MissedWorld(i + 1).handlers.Keys >= MissedWorld(i).handlers.Keys; }
  }

  /** One handler alone: the event after the terminal one is published first, the
    * handler fills the gap, and is back in the live loop past its end.  The
    * generation is over, everything is published and walked, and it waits. */
  lemma EndCanBeMissed() returns (tr: seq<World>, actions: seq<Action>, env: Env)
    ensures Behavior(tr, actions, env)
    ensures var w := tr[|tr| - 1];
      && w.handlers.Keys == {0} && w.handlers[0].phase.Following? && Listening(w.handlers[0])
      && TurnContents.Settled(w.c, w.handlers[0].generationId)
      && EndBefore(w.c.ledger.log, w.handlers[0].generationId, w.handlers[0].last)
      && w.conv.Some? && w.conv.value.published == |w.c.ledger.log| == w.handlers[0].last
      && NextFor(w.handlers[0].sub, w.handlers[0].last + 1) == Blocked
  {
    tr, actions, env := seq(13, i requires 0 <= i < 13 => MissedWorld(i)), MISSED_ACTIONS, PLAIN;
    hide Next;
    forall i | 0 <= i < |actions| ensures Next(tr[i], tr[i + 1], actions[i], env) {
      MissedStep(i);
    }
    var w := tr[12];
    assert w.c.ledger.log[0] == END;
    assert w.handlers[0].sub.pending.Keys == {1, 2};
    assert 1 in w.handlers[0].sub.pending.Keys;
    assert AssistantOf(UPDATED.messages, "g") == 1;
  }
}
