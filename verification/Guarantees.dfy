/** What a client of conversation.generation.attach can rely on, over every
  * behavior of the protocol.
  */
module AttachGuarantees {
  import opened Wrappers
  import opened EventJournal
  import opened ConversationTurns
  import opened ConversationStream
  import opened AttachProtocol
  import TurnContents

  // ----- the store part of a behavior -----

  lemma StepOfBehavior(tr: seq<World>, actions: seq<Action>, env: Env, i: nat)
    requires Behavior(tr, actions, env) && i < |actions|
    ensures WorldInv(tr[i], env.allows) && Next(tr[i], tr[i + 1], actions[i], env)
    ensures Extends(tr[i].c, tr[i + 1].c)
  {
    BehaviorKeepsInv(tr, actions, env, i);
    NextKeepsInv(tr[i], tr[i + 1], actions[i], env);
  }

  function Stores(tr: seq<World>): seq<Conversation> {
    seq(|tr|, i requires 0 <= i < |tr| => tr[i].c)
  }

  lemma BehaviorExtends(tr: seq<World>, actions: seq<Action>, env: Env, i: nat, j: nat)
    requires Behavior(tr, actions, env) && i <= j < |tr|
    ensures Extends(tr[i].c, tr[j].c)
  {
    forall k | i <= k < j ensures Extends(Stores(tr)[k], Stores(tr)[k + 1]) {
      StepOfBehavior(tr, actions, env, k);
    }
    ChainExtends(Stores(tr), i, j);
  }

  lemma {:induction false} BehaviorKeepsText(tr: seq<World>, actions: seq<Action>, env: Env, i: nat)
    requires Behavior(tr, actions, env) && i < |tr|
    ensures TextInv(tr[i].c, tr[0].c)
  {
    hide TextInv, Behavior;
    if i == 0 {
      InitialText(tr, actions, env);
    } else {
      BehaviorKeepsText(tr, actions, env, i - 1);
      TextStep(tr, actions, env, i - 1);
    }
  }

  lemma InitialText(tr: seq<World>, actions: seq<Action>, env: Env)
    requires Behavior(tr, actions, env)
    ensures |tr| > 0 && |tr| == |actions| + 1 && TextInv(tr[0].c, tr[0].c)
  {
    StartedText(tr[0].c);
  }

  lemma TextStep(tr: seq<World>, actions: seq<Action>, env: Env, i: nat)
    requires Behavior(tr, actions, env) && i + 1 < |tr| && TextInv(tr[i].c, tr[0].c)
    ensures TextInv(tr[i + 1].c, tr[0].c)
  {
    InitialText(tr, actions, env);
    hide TextInv, WorldInv, Extends, Init;
    StepOfBehavior(tr, actions, env, i);
    NextKeepsText(tr[i], tr[i + 1], actions[i], env, tr[0].c);
  }

  lemma NextKeepsText(w: World, w': World, a: Action, env: Env, start: Conversation)
    requires WorldInv(w, env.allows) && Next(w, w', a, env) && Extends(w.c, w'.c) && TextInv(w.c, start)
    ensures TextInv(w'.c, start)
  {
    if a.Commit? {
      hide Step, TextInv, LedgerInv;
      StepKeepsText(w.c, w'.c, a.op, env.encode, start);
    }
  }

  // ----- end-to-end reconstruction -----

  lemma {:induction false} FilterKeepsText(events: seq<Event>, allows: Body -> bool, messageId: Id, field: Field)
    requires forall b: Body :: b.Delta? ==> allows(b)
    ensures DeltaText(Filtered(events, allows), messageId, field) == DeltaText(events, messageId, field)
  {
    if events != [] {
      FilterKeepsText(events[1..], allows, messageId, field);
      if allows(events[0].body) {
        assert ([events[0]] + Filtered(events[1..], allows))[1..] == Filtered(events[1..], allows);
      } else {
        assert [] + Filtered(events[1..], allows) == Filtered(events[1..], allows);
      }
    }
  }

  /** State j is the one a reader of the first `last` events has caught up with:
    * its journal ends there, or the next transaction commits past it. */
  ghost predicate EndsAt(tr: seq<World>, j: nat, last: nat)
    requires j < |tr|
  {
    && |tr[j].c.ledger.log| <= last
    && (last == |tr[j].c.ledger.log| || (j + 1 < |tr| && last < |tr[j + 1].c.ledger.log|))
  }

  /** Every point of the history a handler can have walked to has its state. */
  lemma {:induction false} WalkedToAState(tr: seq<World>, actions: seq<Action>, env: Env, i: nat, k: nat, last: nat)
    returns (j: nat)
    requires Behavior(tr, actions, env) && i <= k < |tr|
    requires |tr[i].c.ledger.log| <= last <= |tr[k].c.ledger.log|
    ensures i <= j <= k && EndsAt(tr, j, last)
    decreases k - i
  {
    hide Behavior;
    if i == k || last < |tr[i + 1].c.ledger.log| {
      j := i;
    } else {
      j := WalkedToAState(tr, actions, env, i + 1, k, last);
    }
  }

  lemma QuietBetween(tr: seq<World>, actions: seq<Action>, env: Env, j: nat)
    requires Behavior(tr, actions, env) && j + 1 < |tr|
    requires |tr[j + 1].c.ledger.log| >= |tr[j].c.ledger.log| + 2
    ensures forall e :: e in tr[j + 1].c.ledger.log[|tr[j].c.ledger.log|..] ==> !e.body.Delta?
  {
    StepOfBehavior(tr, actions, env, j);
    var w, w', a := tr[j], tr[j + 1], actions[j];
    hide Behavior, Extends, HandlersInv, ConvInv, Inv, Step;
    if a.Commit? {
      SeveralEventsAreQuiet(w.c, w'.c, a.op, env.encode);
    }
  }

  /** The slice of the history a handler has delivered. */
  lemma DeliveredText(
    tr: seq<World>, actions: seq<Action>, env: Env, i: nat, j: nat, k: nat, id: nat, messageId: Id, field: Field)
    requires Behavior(tr, actions, env) && i <= j < |tr| && i <= k < |tr| && id in tr[k].handlers
    requires forall b: Body :: b.Delta? ==> env.allows(b)
    requires tr[k].handlers[id].after == |tr[i].c.ledger.log|
    requires EndsAt(tr, j, tr[k].handlers[id].last)
    ensures |tr[i].c.ledger.log| <= |tr[j].c.ledger.log|
    ensures DeltaText(tr[k].handlers[id].emitted, messageId, field)
      == DeltaText(tr[j].c.ledger.log[|tr[i].c.ledger.log|..], messageId, field)
  {
    var h := tr[k].handlers[id];
    BehaviorExtends(tr, actions, env, i, j);
    BehaviorExtends(tr, actions, env, i, k);
    var (lo, hi) := if j <= k then (j, k) else (k, j);
    BehaviorExtends(tr, actions, env, lo, hi);
    AttachIsExact(tr, actions, env, k, id);
    var slice := tr[j].c.ledger.log[|tr[i].c.ledger.log|..];
    if h.last == h.after {
      assert slice == [];
      assert tr[k].c.ledger.log[h.after..h.last] == [];
    } else {
      var rest := Beyond(tr, actions, env, j, k, h.last);
      assert slice + rest == tr[k].c.ledger.log[h.after..h.last];
      FilterKeepsText(slice + rest, env.allows, messageId, field);
      DeltaTextConcat(slice, rest, messageId, field);
      DeltaTextOfOthers(rest, messageId, field);
    }
  }

  /** What was walked beyond state j holds no delta. */
  lemma Beyond(tr: seq<World>, actions: seq<Action>, env: Env, j: nat, k: nat, last: nat) returns (rest: seq<Event>)
    requires Behavior(tr, actions, env) && j < |tr| && k < |tr| && EndsAt(tr, j, last)
    requires last <= |tr[k].c.ledger.log|
    ensures rest == tr[k].c.ledger.log[|tr[j].c.ledger.log|..last]
    ensures forall e :: e in rest ==> !e.body.Delta?
  {
    rest := tr[k].c.ledger.log[|tr[j].c.ledger.log|..last];
    if last > |tr[j].c.ledger.log| {
      if k <= j {
        BehaviorExtends(tr, actions, env, k, j);
        assert false;
      }
      QuietBetween(tr, actions, env, j);
      BehaviorExtends(tr, actions, env, j + 1, k);
      var step := tr[j + 1].c.ledger.log[|tr[j].c.ledger.log|..];
      assert rest == step[..last - |tr[j].c.ledger.log|];
    }
  }

  /** The snapshot of state i is taken at event watermark W = |log|, a handler
    * attaches after W.  Whatever commits, publishes, pump steps, prunes and
    * other handlers do in between, and whether or not the attach later resets:
    * snapshot text plus delivered deltas is the text the server stored when its
    * journal reached the last delivered sequence (state j, which
    * WalkedToAState always finds). */
  lemma Reconstruction(
    tr: seq<World>, actions: seq<Action>, env: Env, i: nat, j: nat, k: nat, id: nat, m: nat)
    requires Behavior(tr, actions, env) && i <= j < |tr| && i <= k < |tr| && id in tr[k].handlers
    requires forall b: Body :: b.Delta? ==> env.allows(b)
    requires tr[k].handlers[id].after == |tr[i].c.ledger.log|
    requires EndsAt(tr, j, tr[k].handlers[id].last)
    requires m < |tr[i].c.messages|
    ensures m < |tr[j].c.messages| && tr[j].c.messages[m].id == tr[i].c.messages[m].id
    ensures tr[j].c.messages[m].content
      == tr[i].c.messages[m].content + DeltaText(tr[k].handlers[id].emitted, tr[i].c.messages[m].id, Text)
    ensures tr[j].c.messages[m].reasoning
      == tr[i].c.messages[m].reasoning + DeltaText(tr[k].handlers[id].emitted, tr[i].c.messages[m].id, Reasoning)
  {
    var messageId := tr[i].c.messages[m].id;
    DeliveredText(tr, actions, env, i, j, k, id, messageId, Text);
    DeliveredText(tr, actions, env, i, j, k, id, messageId, Reasoning);
    BehaviorExtends(tr, actions, env, i, j);
    assert GrewBy(tr[i].c.messages[m], tr[j].c.messages[m], tr[j].c.ledger.log[|tr[i].c.ledger.log|..]);
  }

  /** An assistant message opened after the snapshot is rebuilt from the
    * delivered deltas alone. */
  lemma ReconstructionOfNewMessage(
    tr: seq<World>, actions: seq<Action>, env: Env, i: nat, j: nat, k: nat, id: nat, m: nat)
    requires Behavior(tr, actions, env) && i <= j < |tr| && i <= k < |tr| && id in tr[k].handlers
    requires forall b: Body :: b.Delta? ==> env.allows(b)
    requires tr[k].handlers[id].after == |tr[i].c.ledger.log|
    requires EndsAt(tr, j, tr[k].handlers[id].last)
    requires |tr[i].c.messages| <= m < |tr[j].c.messages| && tr[j].c.messages[m].role == Assistant
    ensures tr[j].c.messages[m].content
      == DeltaText(tr[k].handlers[id].emitted, tr[j].c.messages[m].id, Text)
    ensures tr[j].c.messages[m].reasoning
      == DeltaText(tr[k].handlers[id].emitted, tr[j].c.messages[m].id, Reasoning)
  {
    var messageId := tr[j].c.messages[m].id;
    DeliveredText(tr, actions, env, i, j, k, id, messageId, Text);
    DeliveredText(tr, actions, env, i, j, k, id, messageId, Reasoning);
    BehaviorExtends(tr, actions, env, i, j);
    BehaviorKeepsText(tr, actions, env, i);
    BehaviorKeepsText(tr, actions, env, j);
    BehaviorKeepsInv(tr, actions, env, j);
    NewMessageText(tr[i].c, tr[j].c, tr[0].c, m);
  }

  lemma NewMessageText(c: Conversation, c': Conversation, start: Conversation, m: nat)
    requires Extends(c, c') && TextInv(c, start) && TextInv(c', start) && RowsInv(c')
    requires |c.messages| <= m < |c'.messages| && c'.messages[m].role == Assistant
    ensures c'.messages[m].content == DeltaText(c'.ledger.log[|c.ledger.log|..], c'.messages[m].id, Text)
    ensures c'.messages[m].reasoning == DeltaText(c'.ledger.log[|c.ledger.log|..], c'.messages[m].id, Reasoning)
  {
    var log, news := c.ledger.log, c'.ledger.log[|c.ledger.log|..];
    var messageId := c'.messages[m].id;
    assert c'.ledger.log == log + news;
    forall e | e in log && e.body.Delta? ensures e.messageId != messageId {
      var k := IndexOf(c.messages, e.messageId);
      assert GrewBy(c.messages[k], c'.messages[k], news);
    }
    DeltaTextOfOthers(log, messageId, Text);
    DeltaTextOfOthers(log, messageId, Reasoning);
    DeltaTextConcat(log, news, messageId, Text);
    DeltaTextConcat(log, news, messageId, Reasoning);
  }

  // ----- no lost event while nobody is passed over -----

  ghost predicate Lone(w: World) {
    forall a, b :: a in w.handlers && b in w.handlers && w.handlers[a].attached && w.handlers[b].attached ==> a == b
  }

  /** Where the handler will be once the replay it is in succeeds. */
  function Reach(h: Handler): nat {
    if h.phase.Replaying? then h.phase.through else h.last
  }

  ghost predicate Listening(h: Handler) {
    h.attached && h.sub.live && h.sub.reset.None? && !h.sub.closed && !h.phase.Done?
  }

  /** Everything published beyond the handler's reach is in its queue.  Stale
    * entries at or below the reach are allowed. */
  ghost predicate Covered(h: Handler, conv: Conv) {
    && conv.initialized && h.sub.suppressThrough <= Reach(h)
    && forall s :: Reach(h) < s <= conv.published ==> s in h.sub.pending
  }

  ghost predicate Tracking(h: Handler, conv: Option<Conv>) {
    && (!h.phase.Done? ==> h.attached)
    && ((h.phase.Registered? || h.phase.WatermarkCaptured?) ==> !h.sub.live)
    && (Listening(h) ==> conv.Some? && Covered(h, conv.value))
  }

  ghost predicate NothingLost(w: World) {
    forall id :: id in w.handlers ==> Tracking(w.handlers[id], w.conv)
  }

  ghost predicate Carries(events: seq<Event>, sequence: nat) {
    exists x :: x in events && x.sequence == sequence
  }

  /** Every sequence that newly counts as published is handed to the queues. */
  lemma PublishedHandsOver(conv: Conv, e: Event)
    requires Keyed(conv.pending)
    ensures var (conv', events) := Published(conv, e);
      && conv'.initialized == conv.initialized && conv.published <= conv'.published
      && forall s :: conv.published < s <= conv'.published ==> Carries(events, s)
  {
    if conv.initialized && e.sequence == conv.published + 1 {
      var mid := conv.(published := e.sequence);
      DrainIsConsecutive(mid);
      var rest := Drained(mid).1;
      var events := Published(conv, e).1;
      forall s | conv.published < s <= Published(conv, e).0.published
        ensures Carries(events, s)
      {
        if s == e.sequence {
          assert e in events;
        } else {
          var x := rest[s - e.sequence - 1];
          assert x in rest && x.sequence == s;
          assert x in events;
        }
      }
    }
  }

  lemma OfferedTracks(h: Handler, conv: Conv, conv': Conv, events: seq<Event>, size: Event -> nat)
    requires Tracking(h, Some(conv))
    requires conv.initialized == conv'.initialized && conv.published <= conv'.published
    requires forall s :: conv.published < s <= conv'.published ==> Carries(events, s)
    ensures Tracking(Offered(h, events, size), Some(conv'))
  {
    var h' := Offered(h, events, size);
    EnqueueAllEffect(h.sub, events, size);
    if Listening(h') {
      forall s | Reach(h') < s <= conv'.published ensures s in h'.sub.pending {
        if s > conv.published {
          assert Carries(events, s);
          var x :| x in events && x.sequence == s;
        }
      }
    }
  }

  lemma PageTracks(h: Handler, page: Page, conv: Option<Conv>, env: Env, accepts: nat)
    requires Tracking(h, conv) && h.phase.Replaying? && h.last < h.phase.through
    requires !page.resetRequired && page.items != [] ==>
      WalkPage(page.items, h.last, h.phase.through, env.allows, accepts).last <= h.phase.through
    ensures Tracking(AfterPage(h, page, env.allows, accepts), conv)
  {
  }

  lemma TakeTracks(h: Handler, conv: Option<Conv>, log: seq<Event>, env: Env, takes: bool)
    requires Tracking(h, conv) && h.phase.Following? && Genuine(h.sub.pending, log)
    ensures Tracking(AfterTake(h, env.allows, takes, env.size), conv)
  {
    NextIsGenuine(h.sub, h.last + 1, log, env.size);
  }

  lemma LocalTracks(h: Handler, step: LocalStep, conv: Option<Conv>, rows: seq<Event>, log: seq<Event>, env: Env)
    requires Tracking(h, conv) && HandlerInv(h, log, env.allows) && Enabled(h, step, rows)
    requires LedgerInv(Ledger(rows, log))
    ensures Tracking(AfterLocal(h, step, rows, env), conv)
  {
    match step
    case ReadPage(page, accepts) =>
      ReadTracks(h, page, conv, rows, log, env, accepts);
      hide Tracking, AfterPage, HandlerInv, LedgerInv, Enabled;
    case Take(takes) =>
      TakeTracks(h, conv, log, env, takes);
      hide Tracking, AfterTake, HandlerInv, LedgerInv, Enabled;
    case Finish =>
      FinishTracks(h, conv, Latest(rows));
      hide Tracking, EnterReplay, HandlerInv, LedgerInv, Enabled;
    case _ => hide HandlerInv, LedgerInv, Covered;
  }

  lemma ReadTracks(h: Handler, page: Page, conv: Option<Conv>, rows: seq<Event>, log: seq<Event>, env: Env,
      accepts: nat)
    requires Tracking(h, conv) && HandlerInv(h, log, env.allows) && Enabled(h, ReadPage(page, accepts), rows)
    requires LedgerInv(Ledger(rows, log))
    ensures Tracking(AfterPage(h, page, env.allows, accepts), conv)
  {
    if !page.resetRequired {
      PageWalkKeeps(h, page, rows, log, env.allows, accepts, h.phase.through);
    }
    hide HandlerInv, LedgerInv, Tracking, WalkedExactly;
    PageTracks(h, page, conv, env, accepts);
  }

  lemma FinishTracks(h: Handler, conv: Option<Conv>, through: nat)
    requires Tracking(h, conv) && h.phase.Finishing?
    ensures Tracking(EnterReplay(h, through, Final), conv)
  {
    assert Reach(EnterReplay(h, through, Final)) >= Reach(h);
  }

  lemma JoinedTracks(h: Handler, conv: Option<Conv>, log: seq<Event>, env: Env)
    requires Tracking(h, conv) && h.phase.WatermarkCaptured?
    requires conv.Some? ==> ConvInv(conv.value, log)
    ensures Tracking(Joined(h, conv, env.size), Joining(conv, h.phase.high).conv)
  {
    var high := h.phase.high;
    if conv.Some? {
      JoinedConvIsLive(conv.value, high);
      EnqueueAllEffect(GoLive(h.sub, high, env.size), Joining(conv, high).events, env.size);
      SuppressedThrough(h.sub, high, env.size);
      hide WentLive, EnqueueAll, GoLive;
    }
  }

  lemma SuppressedThrough(s: Sub, sequence: nat, size: Event -> nat)
    ensures GoLive(s, sequence, size).closed == s.closed
    ensures !s.closed ==> GoLive(s, sequence, size).suppressThrough == sequence
  {
  }

  lemma JoinedConvIsLive(c: Conv, high: nat)
    requires Keyed(c.pending)
    ensures WentLive(c, high).0.initialized && WentLive(c, high).0.published >= high
  {
    if !c.initialized || high > c.published {
      DrainIsConsecutive(c.(initialized := true, published := high, pending := Newer(c.pending, high)));
    }
  }

  /** The captured watermark of a joining handler does not pass an event that h
    * has neither reached nor queued. */
  ghost predicate NotOvertaken(h: Handler, conv: Conv, captured: nat) {
    forall s :: conv.published < s <= captured ==> s <= Reach(h) || s in h.sub.pending
  }

  ghost predicate NoneOvertaken(handlers: map<nat, Handler>, conv: Option<Conv>, id: nat)
    requires id in handlers && handlers[id].phase.WatermarkCaptured?
  {
    conv.Some? ==> forall k :: k in handlers && k != id && Listening(handlers[k]) ==>
      NotOvertaken(handlers[k], conv.value, handlers[id].phase.high)
  }

  /** beginLiveAt of another handler, seen by h. */
  lemma OtherJoinTracks(h: Handler, conv: Option<Conv>, high: nat, log: seq<Event>, size: Event -> nat)
    requires Tracking(h, conv) && Genuine(h.sub.pending, log) && high <= |log|
    requires conv.Some? ==> ConvInv(conv.value, log)
    requires conv.Some? && Listening(h) ==> NotOvertaken(h, conv.value, high)
    ensures Tracking(Offered(h, Joining(conv, high).events, size), Joining(conv, high).conv)
  {
    var events := Joining(conv, high).events;
    EnqueueAllEffect(h.sub, events, size);
    if conv.Some? && Listening(Offered(h, events, size)) {
      SecondSubscriberIsHarmlessIff(h, conv.value, high, log, size);
    }
  }

  lemma JoinTracks(
    handlers: map<nat, Handler>, conv: Option<Conv>, id: nat, log: seq<Event>, env: Env)
    requires id in handlers && handlers[id].phase.WatermarkCaptured? && handlers[id].phase.high <= |log|
    requires forall k :: k in handlers ==> Tracking(handlers[k], conv)
    requires forall k :: k in handlers ==> Genuine(handlers[k].sub.pending, log)
    requires conv.Some? ==> ConvInv(conv.value, log)
    requires NoneOvertaken(handlers, conv, id)
    ensures var join := Joining(conv, handlers[id].phase.high);
      var handlers' := Fanned(handlers, join.events, env.size)[id := Joined(handlers[id], conv, env.size)];
      forall k :: k in handlers' ==> Tracking(handlers'[k], join.conv)
  {
    JoinedTracks(handlers[id], conv, log, env);
    var join := Joining(conv, handlers[id].phase.high);
    hide Tracking, Joining, ConvInv, Genuine, NotOvertaken;
    forall k | k in handlers && k != id ensures Tracking(Offered(handlers[k], join.events, env.size), join.conv) {
      OtherJoinTracks(handlers[k], conv, handlers[id].phase.high, log, env.size);
    }
  }

  lemma ResetTracks(handlers: map<nat, Handler>, conv: Option<Conv>, conv': Option<Conv>, reason: Reason)
    requires forall k :: k in handlers ==> Tracking(handlers[k], conv)
    ensures forall k :: k in handlers ==> Tracking(ResetHandlers(handlers, reason)[k], conv')
  {
    forall k | k in handlers ensures Tracking(ResetHandlers(handlers, reason)[k], conv') {
      assert Tracking(handlers[k], conv);
    }
  }

  lemma DetachTracks(handlers: map<nat, Handler>, conv: Option<Conv>, conv': Option<Conv>, id: nat)
    requires id in handlers && handlers[id].phase.Done?
    requires forall k :: k in handlers ==> Tracking(handlers[k], conv)
    requires var handlers' := handlers[id := handlers[id].(attached := false, sub := handlers[id].sub.(closed := true))];
      conv' == if exists k :: k in handlers' && handlers'[k].attached then conv else None
    ensures var handlers' := handlers[id := handlers[id].(attached := false, sub := handlers[id].sub.(closed := true))];
      forall k :: k in handlers' ==> Tracking(handlers'[k], conv')
  {
    var handlers' := handlers[id := handlers[id].(attached := false, sub := handlers[id].sub.(closed := true))];
    forall k | k in handlers && k != id ensures Tracking(handlers[k], conv') {
      assert Tracking(handlers[k], conv);
      assert k in handlers' && handlers'[k] == handlers[k];
    }
  }

  lemma FannedTracks(handlers: map<nat, Handler>, conv: Conv, e: Event, size: Event -> nat)
    requires forall k :: k in handlers ==> Tracking(handlers[k], Some(conv))
    requires Keyed(conv.pending)
    ensures var (conv', events) := Published(conv, e);
      forall k :: k in handlers ==> Tracking(Fanned(handlers, events, size)[k], Some(conv'))
  {
    PublishedHandsOver(conv, e);
    var (conv', events) := Published(conv, e);
    forall k | k in handlers ensures Tracking(Fanned(handlers, events, size)[k], Some(conv')) {
      OfferedTracks(handlers[k], conv, conv', events, size);
    }
  }

  lemma EntryTracks(handlers: map<nat, Handler>, conv: Option<Conv>)
    requires forall k :: k in handlers ==> Tracking(handlers[k], conv)
    ensures var conv' := if conv.None? then Some(NEW_CONV) else conv;
      forall k :: k in handlers ==> Tracking(handlers[k], conv')
  {
    forall k | k in handlers ensures Tracking(handlers[k], if conv.None? then Some(NEW_CONV) else conv) {
      assert Tracking(handlers[k], conv);
    }
  }

  lemma ArrivingTracks(after: nat, generationId: Id, conv: Option<Conv>)
    ensures Tracking(Handler(after, generationId, after, [], Registered, true, NEW_SUB), conv)
  {
  }

  /** The facts one step needs, without the store. */
  lemma StepTracks(w: World, w': World, a: Action, env: Env, rows: seq<Event>, log: seq<Event>)
    requires rows == w.c.ledger.rows && log == w.c.ledger.log && LedgerInv(Ledger(rows, log))
    requires w.conv.Some? ==> ConvInv(w.conv.value, log)
    requires a.Local? && a.id in w.handlers ==> HandlerInv(w.handlers[a.id], log, env.allows)
    requires a.BeginLive? && a.id in w.handlers && w.handlers[a.id].phase.WatermarkCaptured? ==>
      && NoneOvertaken(w.handlers, w.conv, a.id) && w.handlers[a.id].phase.high <= |log|
      && forall k :: k in w.handlers ==> Genuine(w.handlers[k].sub.pending, log)
    requires NothingLost(w) && Next(w, w', a, env)
    ensures NothingLost(w')
  {
    hide Tracking, HandlerInv, LedgerInv, Step;
    match a
    case Commit(op) =>
    case Publish(s) =>
      if w.conv.Some? {
        FannedTracks(w.handlers, w.conv.value, log[s - 1], env.size);
      }
    case PumpReset(reason) => ResetTracks(w.handlers, w.conv, w.conv, reason);
    case CloseHub => ResetTracks(w.handlers, w.conv, None, AgentShutdown);
    case RefusedSubscribe => EntryTracks(w.handlers, w.conv);
    case Attach(id, after, generationId) =>
      EntryTracks(w.handlers, w.conv);
      ArrivingTracks(after, generationId, w'.conv);
    case BeginLive(id) => JoinTracks(w.handlers, w.conv, id, log, env);
    case Local(id, step) => LocalTracks(w.handlers[id], step, w.conv, rows, log, env);
    case Detach(id) => DetachTracks(w.handlers, w.conv, w'.conv, id);
  }

  /** A joining handler passes nobody over. */
  ghost predicate Harmless(w: World, a: Action) {
    a.BeginLive? && a.id in w.handlers && w.handlers[a.id].phase.WatermarkCaptured? ==>
      NoneOvertaken(w.handlers, w.conv, a.id)
  }

  ghost predicate HarmlessBehavior(tr: seq<World>, actions: seq<Action>, env: Env) {
    Behavior(tr, actions, env) && forall k :: 0 <= k < |actions| ==> Harmless(tr[k], actions[k])
  }

  lemma NextLosesNothing(w: World, w': World, a: Action, env: Env)
    requires WorldInv(w, env.allows) && NothingLost(w) && Harmless(w, a) && Next(w, w', a, env)
    ensures NothingLost(w')
  {
    hide Tracking, Inv, Step, Listening, NotOvertaken;
    if a.BeginLive? {
      CapturedWithinHistory(w.handlers[a.id], w.c.ledger.log, env.allows);
    }
    assert LedgerInv(w.c.ledger) by { InvHasLedger(w.c); }
    StepTracks(w, w', a, env, w.c.ledger.rows, w.c.ledger.log);
  }

  lemma InvHasLedger(c: Conversation)
    requires Inv(c)
    ensures LedgerInv(c.ledger)
  {
  }

  /** Any number of handlers: while no joining handler passes another one over,
    * everything published beyond a handler's reach is in its queue. */
  lemma {:induction false} NothingIsLost(tr: seq<World>, actions: seq<Action>, env: Env, i: nat)
    requires HarmlessBehavior(tr, actions, env) && i < |tr|
    ensures NothingLost(tr[i])
  {
    if i > 0 {
      NothingIsLost(tr, actions, env, i - 1);
      HarmlessStep(tr, actions, env, i - 1);
    }
  }

  lemma HarmlessStep(tr: seq<World>, actions: seq<Action>, env: Env, i: nat)
    requires HarmlessBehavior(tr, actions, env) && i < |actions| && NothingLost(tr[i])
    ensures NothingLost(tr[i + 1])
  {
    BehaviorKeepsInv(tr, actions, env, i);
    hide Harmless, WorldInv, Init;
    NextLosesNothing(tr[i], tr[i + 1], actions[i], env);
  }

  /** A handler alone passes nobody over. */
  lemma {:induction false} LoneBehaviorLosesNothing(tr: seq<World>, actions: seq<Action>, env: Env, i: nat)
    requires Behavior(tr, actions, env) && i < |tr| && forall k :: 0 <= k < |tr| ==> Lone(tr[k])
    ensures NothingLost(tr[i])
    ensures forall k :: 0 <= k < i ==> Harmless(tr[k], actions[k])
  {
    if i > 0 {
      LoneBehaviorLosesNothing(tr, actions, env, i - 1);
      LoneIsHarmless(tr[i - 1], actions[i - 1]);
      BehaviorKeepsInv(tr, actions, env, i - 1);
      hide Harmless, WorldInv, Init, NothingLost, Lone;
      NextLosesNothing(tr[i - 1], tr[i - 1 + 1], actions[i - 1], env);
    }
  }

  lemma LoneIsHarmless(w: World, a: Action)
    requires Lone(w) && NothingLost(w)
    ensures Harmless(w, a)
  {
    if a.BeginLive? && a.id in w.handlers {
      assert Tracking(w.handlers[a.id], w.conv);
    }
  }

  /** Once the pump has caught up with the journal a handler that is behind never
    * waits: its next event is queued (or its subscription was reset or closed,
    * which the loop reports). */
  lemma NeverWaitsBehindTheJournal(tr: seq<World>, actions: seq<Action>, env: Env, i: nat, id: nat)
    requires HarmlessBehavior(tr, actions, env) && i < |tr|
    requires id in tr[i].handlers && tr[i].handlers[id].phase.Following? && Listening(tr[i].handlers[id])
    requires tr[i].conv.Some? && tr[i].conv.value.published >= |tr[i].c.ledger.log|
    requires tr[i].handlers[id].last < |tr[i].c.ledger.log|
    ensures NextFor(tr[i].handlers[id].sub, tr[i].handlers[id].last + 1)
      == ConversationStream.Delivered(tr[i].c.ledger.log[tr[i].handlers[id].last])
  {
    NothingIsLost(tr, actions, env, i);
    BehaviorKeepsInv(tr, actions, env, i);
  }

  // ----- what a second subscriber does to the first -----

  /** beginLiveAt of a later handler keeps an older one covered exactly when it
    * does not raise the published sequence over an event the older one has
    * neither reached nor queued. */
  lemma SecondSubscriberIsHarmlessIff(h: Handler, conv: Conv, captured: nat, log: seq<Event>, size: Event -> nat)
    requires ConvInv(conv, log) && captured <= |log| && Genuine(h.sub.pending, log)
    requires Listening(h) && Covered(h, conv)
    requires Listening(Offered(h, WentLive(conv, captured).1, size))
    ensures Covered(Offered(h, WentLive(conv, captured).1, size), WentLive(conv, captured).0) <==>
      NotOvertaken(h, conv, captured)
  {
    var (conv', events) := WentLive(conv, captured);
    var h' := Offered(h, events, size);
    EnqueueAllEffect(h.sub, events, size);
    hide EnqueueAll;
    if captured > conv.published {
      var mid := conv.(initialized := true, published := captured, pending := Newer(conv.pending, captured));
      DrainIsConsecutive(mid);
      hide Drained, WentLive;
      forall s | Reach(h) < s <= conv'.published && s > captured ensures s in h'.sub.pending {
        var e := events[s - captured - 1];
        assert e in events && e.sequence == s;
      }
      assert forall e :: e in events ==> e.sequence > captured;
      forall s | conv.published < s <= captured && s > Reach(h) && s !in h.sub.pending
        ensures s !in h'.sub.pending
      {
      }
    }
  }

  /** Every payload takes 39,000 bytes. */
  const PAYLOAD: nat := 39000
  const PLAIN: Env :=
    Env((b: Body) => PAYLOAD, (e: Event) => e.payloadLength + EVENT_ROW_OVERHEAD, (b: Body) => true)
  const FIRST_EVENT: Event := Event(1, "g", "a", EventJournal.Collaboration, PAYLOAD, 1)
  const ARRIVING: Handler := Handler(0, "g", 0, [], Registered, true, NEW_SUB)
  const LIVE_SUB: Sub := Sub(false, None, true, 0, 0, map[])
  const FOLLOWER: Handler := Handler(0, "g", 0, [], Following, true, LIVE_SUB)

  /** A conversation whose first question is being answered. */
  const QUESTION: Message := Message("u", 1, 1, User, MessageComplete, "", "hi", "", [], "g")
  const ANSWER: Message := Message("a", 1, 2, Assistant, MessageStreaming, "", "", "", [], "g")
  const ASKED: Conversation := Conversation(Generating, "g", "a", 2, 2, [QUESTION, ANSWER], Ledger([], []))

  lemma FirstQuestion()
    ensures Step(EMPTY, ASKED, OpBegin("u", "g", "a", "hi"), PLAIN.encode)
    ensures AssistantOf(ASKED.messages, "g") == 1 && !TurnContents.Settled(ASKED, "g")
  {
    assert [] + [QUESTION, ANSWER] == [QUESTION, ANSWER];
    assert IndexOf([], "u") == 0 && IndexOf([], "a") == 0;
  }

  function StarvingWorld(i: nat): World {
    var c1 := ASKED.(ledger := Ledger([FIRST_EVENT], [FIRST_EVENT]));
    if i == 0 then World(EMPTY, None, false, map[])
    else if i == 1 then World(ASKED, None, false, map[])
    else if i == 2 then World(ASKED, Some(NEW_CONV), false, map[0 := ARRIVING])
    else if i == 3 then World(ASKED, Some(NEW_CONV), false, map[0 := ARRIVING.(phase := WatermarkCaptured(0, 0))])
    else if i == 4 then World(ASKED, Some(Conv(0, true, map[])), false, map[0 := FOLLOWER.(phase := Checking)])
    else if i == 5 then World(ASKED, Some(Conv(0, true, map[])), false, map[0 := FOLLOWER])
    else if i == 6 then World(c1, Some(Conv(0, true, map[])), false, map[0 := FOLLOWER])
    else if i == 7 then World(c1, Some(Conv(0, true, map[])), false, map[0 := FOLLOWER, 1 := ARRIVING])
    else if i == 8 then
      World(c1, Some(Conv(0, true, map[])), false, map[0 := FOLLOWER, 1 := ARRIVING.(phase := WatermarkCaptured(1, 1))])
    else
      World(c1, Some(Conv(1, true, map[])), false,
            map[0 := FOLLOWER,
                1 := ARRIVING.(phase := Replaying(1, Initial), sub := LIVE_SUB.(suppressThrough := 1))])
  }

  const STARVING_ACTIONS: seq<Action> :=
    [Commit(OpBegin("u", "g", "a", "hi")), Attach(0, 0, "g"), Local(0, Capture), BeginLive(0), Local(0, CheckState(true)),
     Commit(OpCollaborate("g", "a", 1)), Attach(1, 0, "g"), Local(1, Capture), BeginLive(1)]

  lemma EmptyQueueSplits(sequence: nat)
    ensures Newer(map[], sequence) == map[] && Older(map[], sequence) == map[]
  {
    assert Newer(map[], sequence).Keys == {} && Older(map[], sequence).Keys == {};
  }

  lemma StarvingBegin(i: nat)
    requires i == 3 || i == 8
    ensures Next(StarvingWorld(i), StarvingWorld(i + 1), STARVING_ACTIONS[i], PLAIN)
  {
    var w, w' := StarvingWorld(i), StarvingWorld(i + 1);
    var id, high := if i == 3 then 0 else 1, if i == 3 then 0 else 1;
    EmptyQueueSplits(high);
    assert Joining(w.conv, high) == Join(w'.conv, [], high);
    assert Bytes(map[], PLAIN.size) == 0;
    assert JoinedSub(w.handlers[id], w.conv, high, PLAIN.size) == w'.handlers[id].sub;
    assert Joined(w.handlers[id], w.conv, PLAIN.size) == w'.handlers[id];
    assert Fanned(w.handlers, [], PLAIN.size) == w.handlers;
    assert w'.handlers == w.handlers[id := w'.handlers[id]];
  }

  lemma StarvingStep(i: nat)
    requires i < 9
    ensures Next(StarvingWorld(i), StarvingWorld(i + 1), STARVING_ACTIONS[i], PLAIN)
  {
    FirstQuestion();
    hide Step;
    if i == 3 || i == 8 {
      StarvingBegin(i);
    } else if i == 5 {
      FirstUpdate();
    } else {
      assert StarvingWorld(i + 1).handlers.Keys >= StarvingWorld(i).handlers.Keys;
    }
  }

  /** That can happen: handler 0 follows an idle conversation, one event is
    * committed, and before it is published handler 1 attaches and raises the
    * published sequence past it.  The journal and the published sequence agree,
    * yet handler 0 is behind and waits. */
  lemma OlderHandlerCanStarve() returns (tr: seq<World>, actions: seq<Action>, env: Env)
    ensures Behavior(tr, actions, env)
    ensures var w := tr[|tr| - 1];
      && 0 in w.handlers && w.handlers[0].phase.Following? && Listening(w.handlers[0])
      && w.conv.Some? && w.conv.value.published == |w.c.ledger.log|
      && w.handlers[0].last < |w.c.ledger.log|
      && NextFor(w.handlers[0].sub, w.handlers[0].last + 1) == Blocked
  {
    tr, actions, env := seq(10, i requires 0 <= i < 10 => StarvingWorld(i)), STARVING_ACTIONS, PLAIN;
    forall i | 0 <= i < |actions| ensures Next(tr[i], tr[i + 1], actions[i], env) {
      StarvingStep(i);
    }
  }

  lemma FirstUpdate()
    ensures Step(ASKED, ASKED.(ledger := Ledger([FIRST_EVENT], [FIRST_EVENT])), OpCollaborate("g", "a", 1), PLAIN.encode)
  {
    FirstAppend(FIRST_EVENT);
    hide Appended;
    assert [] + [FIRST_EVENT] == [FIRST_EVENT];
  }

  lemma FirstAppend(e: Event)
    requires e.sequence == 1 && e.payloadLength <= MAXIMUM_EVENT_PAYLOAD
    ensures Appended([], e.(sequence := 0)) == [e]
  {
    assert [] + [e] == [e];
    UnexpiredAll([e], e.occurredAt - MAXIMUM_REPLAY_AGE);
    LightRowsStay([e]);
  }

  // ----- how far one replay reaches -----

  lemma {:induction false} WalkOfInterval(items: seq<Event>, last: nat, through: nat, allows: Body -> bool,
      accepts: nat)
    requires last <= through
    requires forall i :: 0 <= i < |items| ==> items[i].sequence == last + 1 + i
    ensures var w := WalkPage(items, last, through, allows, accepts);
      w.status == WalkRefused
      || (w.status == WalkedAll && w.last == (if last + |items| < through then last + |items| else through))
  {
    if items != [] && items[0].sequence <= through {
      var inner := if allows(items[0].body) then accepts - 1 else accepts;
      if inner >= 0 {
        WalkOfInterval(items[1..], last + 1, through, allows, inner);
      }
    }
  }

  /** The replay loop is written to read several pages, but a page always ends at
    * the last row it holds, so a range that does not fit the first page ends as
    * a sequence gap.  Over an intact interval a replay the peer keeps accepting
    * reaches its end exactly when that first page does. */
  lemma ReplayReachesItsEndIffOnePageDoes(
    h: Handler, page: Page, rows: seq<Event>, allows: Body -> bool, accepts: nat)
    requires h.phase.Replaying? && h.last < h.phase.through <= Latest(rows)
    requires Ordered(rows) && Contiguous(rows) && IsPage(rows, h.last, page) && !CursorLost(rows, h.last)
    requires WalkPage(page.items, h.last, h.phase.through, allows, accepts).status != WalkRefused
    ensures AfterPage(h, page, allows, accepts).last == h.phase.through <==> page.nextSequence >= h.phase.through
    ensures page.nextSequence < h.phase.through ==>
      page.hasMore && AfterPage(h, page, allows, accepts).phase == Done(SequenceGapReset)
    ensures page.nextSequence >= h.phase.through ==>
      AfterPage(h, page, allows, accepts).phase
        == Arrived(h, h.phase.purpose).phase
  {
    LiveCursorMissesNothing(rows, h.last);
    assert After(rows, h.last) != [];
    forall i | 0 <= i < |page.items| ensures page.items[i].sequence == h.last + 1 + i {
      assert page.items[i] == After(rows, h.last)[i];
    }
    WalkOfInterval(page.items, h.last, h.phase.through, allows, accepts);
  }

  const SECOND_EVENT: Event := FIRST_EVENT.(sequence := 2)
  const ATTACH_PAGE_BYTES: nat := 49152
  const ENVELOPE: nat := 200
  const SHORT_PAGE: Page := Page([FIRST_EVENT], 1, 2, 1, true, false, ByteBudget)

  function ReplayWorld(i: nat): World {
    var c1 := ASKED.(ledger := Ledger([FIRST_EVENT], [FIRST_EVENT]));
    var c2 := ASKED.(ledger := Ledger([FIRST_EVENT, SECOND_EVENT], [FIRST_EVENT, SECOND_EVENT]));
    var joined := ARRIVING.(phase := Replaying(2, Initial), sub := LIVE_SUB.(suppressThrough := 2));
    if i == 0 then World(EMPTY, None, false, map[])
    else if i == 1 then World(ASKED, None, false, map[])
    else if i == 2 then World(c1, None, false, map[])
    else if i == 3 then World(c2, None, false, map[])
    else if i == 4 then World(c2, Some(NEW_CONV), false, map[0 := ARRIVING])
    else if i == 5 then World(c2, Some(NEW_CONV), false, map[0 := ARRIVING.(phase := WatermarkCaptured(2, 1))])
    else if i == 6 then World(c2, Some(Conv(2, true, map[])), false, map[0 := joined])
    else
      World(c2, Some(Conv(2, true, map[])), false,
            map[0 := joined.(phase := Done(SequenceGapReset), last := 1, emitted := [FIRST_EVENT])])
  }

  const REPLAY_ACTIONS: seq<Action> :=
    [Commit(OpBegin("u", "g", "a", "hi")), Commit(OpCollaborate("g", "a", 1)), Commit(OpCollaborate("g", "a", 1)),
     Attach(0, 0, "g"), Local(0, Capture), BeginLive(0), Local(0, ReadPage(SHORT_PAGE, 1))]

  lemma SecondUpdate()
    ensures Step(ASKED.(ledger := Ledger([FIRST_EVENT], [FIRST_EVENT])),
                 ASKED.(ledger := Ledger([FIRST_EVENT, SECOND_EVENT], [FIRST_EVENT, SECOND_EVENT])),
                 OpCollaborate("g", "a", 1), PLAIN.encode)
  {
    SecondAppend();
    hide Appended;
    assert [FIRST_EVENT] + [SECOND_EVENT] == [FIRST_EVENT, SECOND_EVENT];
  }

  lemma SecondAppend()
    ensures Appended([FIRST_EVENT], FIRST_EVENT.(sequence := 0)) == [FIRST_EVENT, SECOND_EVENT]
  {
    var rows := [FIRST_EVENT, SECOND_EVENT];
    assert [FIRST_EVENT] + [SECOND_EVENT] == rows;
    UnexpiredAll(rows, 1 - MAXIMUM_REPLAY_AGE);
    LightRowsStay(rows);
    hide Unexpired, Trimmed;
  }

  lemma ShortPageIsPage()
    ensures IsPage([FIRST_EVENT, SECOND_EVENT], 0, SHORT_PAGE)
  {
    assert After([FIRST_EVENT, SECOND_EVENT], 0) == [FIRST_EVENT, SECOND_EVENT];
    assert [FIRST_EVENT] <= [FIRST_EVENT, SECOND_EVENT];
  }

  lemma ShortPageWalk()
    ensures WalkPage([FIRST_EVENT], 0, 2, PLAIN.allows, 1) == Walk(1, [FIRST_EVENT], WalkedAll)
  {
    assert [FIRST_EVENT][1..] == [];
    assert WalkPage([], 1, 2, PLAIN.allows, 0) == Walk(1, [], WalkedAll);
  }

  lemma ReplayStep(i: nat)
    requires i < 7
    ensures Next(ReplayWorld(i), ReplayWorld(i + 1), REPLAY_ACTIONS[i], PLAIN)
  {
    var w, w' := ReplayWorld(i), ReplayWorld(i + 1);
    FirstQuestion();
    hide Step;
    if i == 1 {
      FirstUpdate();
    } else if i == 2 {
      SecondUpdate();
    } else if i == 5 {
      ReplayBegin();
    } else if i == 6 {
      ReplayRead();
    } else {
      assert ReplayWorld(i + 1).handlers.Keys >= ReplayWorld(i).handlers.Keys;
    }
  }

  lemma ReplayRead()
    ensures Next(ReplayWorld(6), ReplayWorld(7), Local(0, ReadPage(SHORT_PAGE, 1)), PLAIN)
  {
    var w, w' := ReplayWorld(6), ReplayWorld(7);
    ShortPageIsPage();
    ShortPageWalk();
    hide IsPage, WalkPage, TurnContents.Settled;
    assert [] + [FIRST_EVENT] == [FIRST_EVENT];
    assert AfterLocal(w.handlers[0], ReadPage(SHORT_PAGE, 1), w.c.ledger.rows, PLAIN) == w'.handlers[0];
    assert w'.handlers == w.handlers[0 := w'.handlers[0]];
  }

  lemma ReplayBegin()
    ensures Next(ReplayWorld(5), ReplayWorld(6), BeginLive(0), PLAIN)
  {
    var w, w' := ReplayWorld(5), ReplayWorld(6);
    EmptyQueueSplits(2);
    assert Joining(w.conv, 2) == Join(w'.conv, [], 2);
    assert Bytes(map[], PLAIN.size) == 0;
    assert JoinedSub(w.handlers[0], w.conv, 2, PLAIN.size) == w'.handlers[0].sub;
    assert Joined(w.handlers[0], w.conv, PLAIN.size) == w'.handlers[0];
    assert Fanned(w.handlers, [], PLAIN.size) == w.handlers;
    assert w'.handlers == w.handlers[0 := w'.handlers[0]];
  }

  /** A run in which the journal is whole and the peer accepts every frame, yet
    * the replay ends as a sequence gap: its first page holds one of two events,
    * because two together exceed the byte budget. */
  lemma ReplayCanStopAtItsFirstPage() returns (tr: seq<World>, actions: seq<Action>, env: Env, measure: Page -> nat)
    ensures Behavior(tr, actions, env) && |actions| > 0
    ensures var w, w' := tr[|actions| - 1], tr[|actions|];
      && actions[|actions| - 1] == Local(0, ReadPage(SHORT_PAGE, 1)) && measure(SHORT_PAGE) <= ATTACH_PAGE_BYTES
      && (forall page :: measure(page) == TotalBytes(page.items) + ENVELOPE)
      && FinalPage(w.c.ledger.rows, 0, MAXIMUM_EVENT_PAGE, ATTACH_PAGE_BYTES, measure) == SHORT_PAGE
      && Contiguous(w.c.ledger.rows) && 0 in w.handlers && 0 in w'.handlers
      && w.handlers[0].phase == Replaying(2, Initial) && SHORT_PAGE.nextSequence < 2
      && w'.handlers[0].phase == Done(SequenceGapReset)
  {
    tr, actions, env := seq(8, i requires 0 <= i < 8 => ReplayWorld(i)), REPLAY_ACTIONS, PLAIN;
    measure := (page: Page) => TotalBytes(page.items) + ENVELOPE;
    forall i | 0 <= i < |actions| ensures Next(tr[i], tr[i + 1], actions[i], env) {
      ReplayStep(i);
    }
    ShortPageIsFinal(measure);
    hide FinalPage, TotalBytes;
  }

  lemma ShortPageIsFinal(measure: Page -> nat)
    requires forall page :: measure(page) == TotalBytes(page.items) + ENVELOPE
    ensures FinalPage([FIRST_EVENT, SECOND_EVENT], 0, MAXIMUM_EVENT_PAGE, ATTACH_PAGE_BYTES, measure) == SHORT_PAGE
    ensures measure(SHORT_PAGE) <= ATTACH_PAGE_BYTES
  {
    var rows := [FIRST_EVENT, SECOND_EVENT];
    assert After(rows, 0) == rows && rows[..1] == [FIRST_EVENT] && rows[..2] == rows;
    assert TotalBytes([FIRST_EVENT]) == PAYLOAD + EVENT_ROW_OVERHEAD + TotalBytes([FIRST_EVENT][1..]);
    assert TotalBytes(rows) == PAYLOAD + EVENT_ROW_OVERHEAD + TotalBytes(rows[1..]);
    assert rows[1..] == [SECOND_EVENT];
    assert TotalBytes([SECOND_EVENT]) == PAYLOAD + EVENT_ROW_OVERHEAD + TotalBytes([SECOND_EVENT][1..]);
    assert Taken(rows, 0, MAXIMUM_EVENT_PAGE, ATTACH_PAGE_BYTES, measure, 1) == 1;
    assert Taken(rows, 0, MAXIMUM_EVENT_PAGE, ATTACH_PAGE_BYTES, measure, 0) == 1;
  }
}
