/** conversation.generation.attach: a durable replay joined to a live queue.
  * The store, the publishers, the pump and any number of attach handlers run
  * concurrently; every transition below is one atomic step of one of them.
  */
module AttachProtocol {
  import opened Wrappers
  import opened EventJournal
  import opened ConversationTurns
  import opened ConversationStream
  import TurnContents

  datatype Purpose = Initial | GapFill | Final

  datatype Outcome =
    | Completion
    | ClientCancel
    | CursorExpiredReset
    | SequenceGapReset
    | SubscriberReset(reason: Reason)

  datatype Phase =
    | Registered
    | WatermarkCaptured(high: nat, earliest: nat)
    | Replaying(through: nat, purpose: Purpose)
    | Checking
    | Following
    | Finishing
    | Done(outcome: Outcome)

  /** One attach handler: the cursor it was given, the last sequence it walked
    * and the frames it emitted. */
  datatype Handler = Handler(
    after: nat, generationId: Id, last: nat, emitted: seq<Event>, phase: Phase, attached: bool, sub: Sub)

  datatype World = World(c: Conversation, conv: Option<Conv>, hubClosed: bool, handlers: map<nat, Handler>)

  // ----- the handler's local computation -----

  function Filtered(events: seq<Event>, allows: Body -> bool): seq<Event> {
    if events == [] then []
    else (if allows(events[0].body) then [events[0]] else []) + Filtered(events[1..], allows)
  }

  datatype WalkStatus = WalkedAll | WalkGap | WalkRefused

  datatype Walk = Walk(last: nat, emitted: seq<Event>, status: WalkStatus)

  /** Emits the rows of a page in strict sequence order up to `through`; the
    * peer takes `accepts` more frames before its connection fails. */
  function WalkPage(items: seq<Event>, last: nat, through: nat, allows: Body -> bool, accepts: nat): Walk {
    if items == [] || items[0].sequence > through then Walk(last, [], WalkedAll)
    else if items[0].sequence != last + 1 then Walk(last, [], WalkGap)
    else if !allows(items[0].body) then WalkPage(items[1..], last + 1, through, allows, accepts)
    else if accepts == 0 then Walk(last, [], WalkRefused)
    else
      var rest := WalkPage(items[1..], last + 1, through, allows, accepts - 1);
      rest.(emitted := [items[0]] + rest.emitted)
  }

  function Prepended(emitted: seq<Event>, walk: Walk): Walk {
    walk.(emitted := emitted + walk.emitted)
  }

  lemma WalkAt(items: seq<Event>, index: nat, last: nat, through: nat, allows: Body -> bool, accepts: nat)
    requires index <= |items|
    ensures WalkPage(items[index..], last, through, allows, accepts) ==
      if index == |items| || items[index].sequence > through then Walk(last, [], WalkedAll)
      else if items[index].sequence != last + 1 then Walk(last, [], WalkGap)
      else if !allows(items[index].body) then WalkPage(items[index + 1..], last + 1, through, allows, accepts)
      else if accepts == 0 then Walk(last, [], WalkRefused)
      else Prepended([items[index]], WalkPage(items[index + 1..], last + 1, through, allows, accepts - 1))
  {
    if index < |items| {
      assert items[index..][1..] == items[index + 1..];
    }
  }

  lemma PrependedTwice(a: seq<Event>, b: seq<Event>, walk: Walk)
    ensures Prepended(a, Prepended(b, walk)) == Prepended(a + b, walk)
    ensures Prepended(a, walk.(emitted := [])) == walk.(emitted := a)
    ensures Prepended([], walk) == walk
  {
    assert a + (b + walk.emitted) == a + b + walk.emitted;
    assert a + [] == a && [] + walk.emitted == walk.emitted;
  }

  /** The page loop of the replay, as the source runs it. */
  method WalkPageInOrder(items: seq<Event>, after: nat, through: nat, allows: Body -> bool, accepts: nat)
      returns (walk: Walk)
    ensures walk == WalkPage(items, after, through, allows, accepts)
  {
    var last, emitted, left := after, [], accepts;
    var index := 0;
    ghost var whole := WalkPage(items, after, through, allows, accepts);
    assert items[0..] == items;
    PrependedTwice([], [], whole);
    hide WalkPage, Prepended;
    while index < |items|
      invariant 0 <= index <= |items|
      invariant whole == Prepended(emitted, WalkPage(items[index..], last, through, allows, left))
    {
      var event := items[index];
      WalkAt(items, index, last, through, allows, left);
      if event.sequence > through {
        break;
      }
      if event.sequence != last + 1 {
        PrependedTwice(emitted, [], Walk(last, emitted, WalkGap));
        return Walk(last, emitted, WalkGap);
      }
      if allows(event.body) {
        if left == 0 {
          PrependedTwice(emitted, [], Walk(last, emitted, WalkRefused));
          return Walk(last, emitted, WalkRefused);
        }
        PrependedTwice(emitted, [event], WalkPage(items[index + 1..], last + 1, through, allows, left - 1));
        emitted := emitted + [event];
        left := left - 1;
      }
      last := event.sequence;
      index := index + 1;
    }
    WalkAt(items, index, last, through, allows, left);
    PrependedTwice(emitted, [], Walk(last, emitted, WalkedAll));
    walk := Walk(last, emitted, WalkedAll);
  }

  function Arrived(h: Handler, purpose: Purpose): Handler {
    match purpose
    case Initial => h.(phase := Checking)
    case GapFill => h.(phase := Following)
    case Final => h.(phase := Done(Completion))
  }

  function EnterReplay(h: Handler, through: nat, purpose: Purpose): Handler {
    if h.last >= through then Arrived(h, purpose) else h.(phase := Replaying(through, purpose))
  }

  /** One page of a replay has been read. */
  function AfterPage(h: Handler, page: Page, allows: Body -> bool, accepts: nat): Handler
    requires h.phase.Replaying?
  {
    if page.resetRequired then h.(phase := Done(CursorExpiredReset))
    else if page.items == [] then h.(phase := Done(SequenceGapReset))
    else
      var w := WalkPage(page.items, h.last, h.phase.through, allows, accepts);
      var h1 := h.(last := w.last, emitted := h.emitted + w.emitted);
      if w.status == WalkRefused then h1.(phase := Done(ClientCancel))
      else if w.status == WalkGap then h1.(phase := Done(SequenceGapReset))
      else if w.last < h.phase.through && (!page.hasMore || page.nextSequence <= w.last) then
        h1.(phase := Done(SequenceGapReset))
      else EnterReplay(h1, h.phase.through, h.phase.purpose)
  }

  /** One attempt of the live loop; `accepts` says whether the peer takes the
    * frame. */
  function AfterTake(h: Handler, allows: Body -> bool, accepts: bool, size: Event -> nat): Handler {
    var expected := h.last + 1;
    var h1 := h.(sub := AfterNext(h.sub, expected, size));
    match NextFor(h.sub, expected)
    case Closed => h1.(phase := Done(SubscriberReset(AgentShutdown)))
    case Reset(reason) => h1.(phase := Done(SubscriberReset(reason)))
    case Gap(minimum) => EnterReplay(h1, minimum - 1, GapFill)
    case Blocked => h1
    case Delivered(event) =>
      if event.sequence != expected then h1.(phase := Done(SequenceGapReset))
      else if allows(event.body) && !accepts then h1.(phase := Done(ClientCancel))
      else
        var h2 := h1.(last := event.sequence,
                      emitted := if allows(event.body) then h1.emitted + [event] else h1.emitted);
        if event.generationId == h.generationId && IsTerminal(event.body) then h2.(phase := Finishing) else h2
  }

  // ----- the hub seen by all handlers -----

  function Offered(h: Handler, events: seq<Event>, size: Event -> nat): Handler {
    if h.attached then h.(sub := EnqueueAll(h.sub, events, size)) else h
  }

  function Fanned(handlers: map<nat, Handler>, events: seq<Event>, size: Event -> nat): map<nat, Handler> {
    map id | id in handlers :: Offered(handlers[id], events, size)
  }

  function ResetHandlers(handlers: map<nat, Handler>, reason: Reason): map<nat, Handler> {
    map id | id in handlers ::
      if handlers[id].attached then handlers[id].(sub := MarkedReset(handlers[id].sub, reason)) else handlers[id]
  }

  datatype Action =
    | Commit(op: Op)
    | Publish(sequence: nat)
    | PumpReset(reason: Reason)
    | CloseHub
    | RefusedSubscribe
    | Attach(id: nat, after: nat, generationId: Id)
    | BeginLive(id: nat)
    | Local(id: nat, step: LocalStep)
    | Detach(id: nat)

  /** A step that reads the store at most and touches only its own handler. */
  datatype LocalStep =
    | Capture
    | ReadPage(page: Page, accepts: nat)
    | CheckState(active: bool)
    | Take(takes: bool)
    | Finish
    | Cancel

  datatype Env = Env(encode: Body -> nat, size: Event -> nat, allows: Body -> bool)

  /** beginLiveAt as the hub sees it: the entry afterwards, the events its drain
    * hands out, and how far the durable replay has to go. */
  datatype Join = Join(conv: Option<Conv>, events: seq<Event>, through: nat)

  function Joining(conv: Option<Conv>, high: nat): Join {
    if conv.None? then Join(None, [], high)
    else
      var (conv', events) := WentLive(conv.value, high);
      Join(Some(conv'), events, if conv'.published > high then conv'.published else high)
  }

  ghost function JoinedSub(h: Handler, conv: Option<Conv>, high: nat, size: Event -> nat): Sub {
    if conv.None? then MarkedReset(h.sub, AgentShutdown)
    else EnqueueAll(GoLive(h.sub, high, size), Joining(conv, high).events, size)
  }

  /** The handler after beginLiveAt and the cursor check that follows it. */
  ghost function Joined(h: Handler, conv: Option<Conv>, size: Event -> nat): Handler
    requires h.phase.WatermarkCaptured?
  {
    var (high, earliest) := (h.phase.high, h.phase.earliest);
    var h1 := h.(sub := JoinedSub(h, conv, high, size));
    if h.after > high || (earliest > 1 && h.after < earliest - 1) then h1.(phase := Done(CursorExpiredReset))
    else EnterReplay(h1, Joining(conv, high).through, Initial)
  }

  ghost predicate Enabled(h: Handler, step: LocalStep, rows: seq<Event>) {
    match step
    case Capture => h.phase.Registered?
    case ReadPage(page, _) => h.phase.Replaying? && IsPage(rows, h.last, page)
    case CheckState(_) => h.phase.Checking?
    case Take(_) => h.phase.Following?
    case Finish => h.phase.Finishing?
    case Cancel => !h.phase.Done?
  }

  function AfterLocal(h: Handler, step: LocalStep, rows: seq<Event>, env: Env): Handler
    requires step.ReadPage? ==> h.phase.Replaying?
  {
    match step
    case Capture => h.(phase := WatermarkCaptured(Latest(rows), Earliest(rows)))
    case ReadPage(page, accepts) => AfterPage(h, page, env.allows, accepts)
    case CheckState(active) => h.(phase := if active then Following else Finishing)
    case Take(takes) => AfterTake(h, env.allows, takes, env.size)
    case Finish => EnterReplay(h, Latest(rows), Final)
    case Cancel => h.(phase := Done(ClientCancel))
  }

  ghost predicate Next(w: World, w': World, a: Action, env: Env) {
    match a
    case Commit(op) => w' == w.(c := w'.c) && Step(w.c, w'.c, op, env.encode)
    case Publish(s) =>
      && 1 <= s <= |w.c.ledger.log|
      && (if w.conv.None? then w' == w
          else
            var (conv', events) := Published(w.conv.value, w.c.ledger.log[s - 1]);
            w' == w.(conv := Some(conv'), handlers := Fanned(w.handlers, events, env.size)))
    case PumpReset(reason) => w' == w.(handlers := ResetHandlers(w.handlers, reason))
    case CloseHub =>
      w' == w.(conv := None, hubClosed := true, handlers := ResetHandlers(w.handlers, AgentShutdown))
    case RefusedSubscribe =>
      !w.hubClosed && w' == w.(conv := if w.conv.None? then Some(NEW_CONV) else w.conv)
    case Attach(id, after, generationId) =>
      && id !in w.handlers && !w.hubClosed
      && generationId != "" && AssistantOf(w.c.messages, generationId) < |w.c.messages|
      && w' == w.(conv := if w.conv.None? then Some(NEW_CONV) else w.conv,
                  handlers := w.handlers[id := Handler(after, generationId, after, [], Registered, true, NEW_SUB)])
    case BeginLive(id) =>
      && id in w.handlers && w.handlers[id].phase.WatermarkCaptured?
      && var join := Joining(w.conv, w.handlers[id].phase.high);
         w' == w.(conv := join.conv,
                  handlers := Fanned(w.handlers, join.events, env.size)
                    [id := Joined(w.handlers[id], w.conv, env.size)])
    case Local(id, step) =>
      && id in w.handlers && Enabled(w.handlers[id], step, w.c.ledger.rows)
      && (step.CheckState? ==> step.active == !TurnContents.Settled(w.c, w.handlers[id].generationId))
      && w' == w.(handlers := w.handlers[id := AfterLocal(w.handlers[id], step, w.c.ledger.rows, env)])
    case Detach(id) =>
      && id in w.handlers && w.handlers[id].attached && w.handlers[id].phase.Done?
      && var handlers := w.handlers[id := w.handlers[id].(
                           attached := false, sub := w.handlers[id].sub.(closed := true))];
         w' == w.(handlers := handlers,
                  conv := if exists k :: k in handlers && handlers[k].attached then w.conv else None)
  }

  ghost predicate Init(w: World) {
    w == World(w.c, None, false, map[]) && Started(w.c)
  }

  ghost predicate Behavior(tr: seq<World>, actions: seq<Action>, env: Env) {
    && |tr| == |actions| + 1 && Init(tr[0])
    && (forall i :: 0 <= i < |actions| ==> Next(tr[i], tr[i + 1], actions[i], env))
  }

  // ----- order and exactness, for any number of handlers -----

  ghost predicate Genuine(pending: map<nat, Event>, log: seq<Event>) {
    forall k :: k in pending ==> 1 <= k <= |log| && pending[k] == log[k - 1] && pending[k].sequence == k
  }

  ghost predicate WalkedExactly(h: Handler, log: seq<Event>, allows: Body -> bool) {
    h.after <= h.last <= |log| && h.emitted == Filtered(log[h.after..h.last], allows)
  }

  ghost predicate HandlerInv(h: Handler, log: seq<Event>, allows: Body -> bool) {
    && Genuine(h.sub.pending, log)
    && match h.phase
       case Registered => h.last == h.after && h.emitted == []
       case WatermarkCaptured(high, _) => h.last == h.after && h.emitted == [] && high <= |log|
       case Replaying(through, _) => WalkedExactly(h, log, allows) && h.last < through <= |log|
       case Done(_) => WalkedExactly(h, log, allows) || (h.last == h.after && h.emitted == [])
       case _ => WalkedExactly(h, log, allows)
  }

  ghost predicate ConvInv(conv: Conv, log: seq<Event>) {
    Genuine(conv.pending, log) && conv.published <= |log|
  }

  ghost predicate WorldInv(w: World, allows: Body -> bool) {
    && Inv(w.c)
    && (w.conv.Some? ==> ConvInv(w.conv.value, w.c.ledger.log))
    && HandlersInv(w.handlers, w.c.ledger.log, allows)
  }

  lemma {:induction false} FilteredConcat(a: seq<Event>, b: seq<Event>, allows: Body -> bool)
    ensures Filtered(a + b, allows) == Filtered(a, allows) + Filtered(b, allows)
  {
    if a == [] {
      assert a + b == b;
    } else {
      var first := if allows(a[0].body) then [a[0]] else [];
      assert (a + b)[1..] == a[1..] + b;
      FilteredConcat(a[1..], b, allows);
      var x, y := Filtered(a[1..], allows), Filtered(b, allows);
      assert first + (x + y) == first + x + y;
    }
  }

  lemma WalkExtends(h: Handler, log: seq<Event>, allows: Body -> bool, last: nat, more: seq<Event>)
    requires WalkedExactly(h, log, allows) && h.last <= last <= |log|
    requires more == Filtered(log[h.last..last], allows)
    ensures h.emitted + more == Filtered(log[h.after..last], allows)
  {
    assert log[h.after..last] == log[h.after..h.last] + log[h.last..last];
    FilteredConcat(log[h.after..h.last], log[h.last..last], allows);
  }

  /** Walking rows of the history moves the cursor over consecutive sequences,
    * never past `through`, and emits exactly that slice of the history. */
  lemma {:induction false} WalkIsExact(
    items: seq<Event>, last: nat, through: nat, allows: Body -> bool, accepts: nat, log: seq<Event>)
    requires last <= through <= |log|
    requires forall e :: e in items ==> 1 <= e.sequence <= |log| && e == log[e.sequence - 1]
    ensures var w := WalkPage(items, last, through, allows, accepts);
      last <= w.last <= through && w.emitted == Filtered(log[last..w.last], allows)
  {
    if items == [] || items[0].sequence > through || items[0].sequence != last + 1 {
      assert log[last..last] == [];
    } else {
      var e, rest := items[0], items[1..];
      assert e == log[last];
      var inner := if allows(e.body) then accepts - 1 else accepts;
      if inner < 0 {
        assert log[last..last] == [];
      } else {
        WalkIsExact(rest, last + 1, through, allows, inner, log);
        var end := WalkPage(rest, last + 1, through, allows, inner).last;
        assert log[last..end] == [e] + log[last + 1..end];
      }
    }
  }

  lemma HandlerInvGrows(h: Handler, log: seq<Event>, log': seq<Event>, allows: Body -> bool)
    requires HandlerInv(h, log, allows) && log <= log'
    ensures HandlerInv(h, log', allows)
  {
    if WalkedExactly(h, log, allows) {
      assert log'[h.after..h.last] == log[h.after..h.last];
    }
  }

  lemma {:induction false} EnqueueAllEffect(s: Sub, events: seq<Event>, size: Event -> nat)
    ensures var t := EnqueueAll(s, events, size);
      && t.closed == s.closed && t.live == s.live && t.suppressThrough == s.suppressThrough
      && (s.reset.Some? ==> t.reset.Some?)
      && (forall k :: k in s.pending ==> k in t.pending && t.pending[k] == s.pending[k])
      && (forall k :: k in t.pending && k !in s.pending ==> t.pending[k] in events && t.pending[k].sequence == k)
      && (t.reset.None? && s.live && !s.closed ==>
            forall e :: e in events && e.sequence > s.suppressThrough ==> e.sequence in t.pending)
  {
    if events != [] {
      EnqueueAllEffect(s, events[..|events| - 1], size);
      assert events == events[..|events| - 1] + [events[|events| - 1]];
    }
  }

  lemma FannedKeeps(handlers: map<nat, Handler>, events: seq<Event>, log: seq<Event>, env: Env)
    requires forall id :: id in handlers ==> HandlerInv(handlers[id], log, env.allows)
    requires forall e :: e in events ==> 1 <= e.sequence <= |log| && e == log[e.sequence - 1]
    ensures forall id :: id in Fanned(handlers, events, env.size) ==>
      HandlerInv(Fanned(handlers, events, env.size)[id], log, env.allows)
  {
    hide HandlerInv;
    forall id | id in handlers ensures HandlerInv(Offered(handlers[id], events, env.size), log, env.allows) {
      OfferedKeeps(handlers[id], events, log, env);
    }
  }

  lemma OfferedKeeps(h: Handler, events: seq<Event>, log: seq<Event>, env: Env)
    requires HandlerInv(h, log, env.allows)
    requires forall e :: e in events ==> 1 <= e.sequence <= |log| && e == log[e.sequence - 1]
    ensures HandlerInv(Offered(h, events, env.size), log, env.allows)
  {
    EnqueueAllEffect(h.sub, events, env.size);
    if WalkedExactly(h, log, env.allows) {
      SameWalk(h, Offered(h, events, env.size), log, env.allows);
    }
  }

  lemma DrainedKeeps(conv: Conv, log: seq<Event>)
    requires ConvInv(conv, log)
    ensures ConvInv(Drained(conv).0, log)
    ensures forall e :: e in Drained(conv).1 ==> 1 <= e.sequence <= |log| && e == log[e.sequence - 1]
  {
    DrainIsConsecutive(conv);
    var (conv', events) := Drained(conv);
    if events != [] {
      assert events[|events| - 1].sequence == conv'.published;
    }
  }

  lemma PublishedKeeps(conv: Conv, e: Event, log: seq<Event>)
    requires ConvInv(conv, log) && 1 <= e.sequence <= |log| && e == log[e.sequence - 1]
    ensures ConvInv(Published(conv, e).0, log)
    ensures forall x :: x in Published(conv, e).1 ==> 1 <= x.sequence <= |log| && x == log[x.sequence - 1]
  {
    if conv.initialized && e.sequence == conv.published + 1 {
      DrainedKeeps(conv.(published := e.sequence), log);
    }
  }

  lemma WentLiveKeeps(conv: Conv, sequence: nat, log: seq<Event>)
    requires ConvInv(conv, log) && sequence <= |log|
    ensures ConvInv(WentLive(conv, sequence).0, log)
    ensures forall x :: x in WentLive(conv, sequence).1 ==> 1 <= x.sequence <= |log| && x == log[x.sequence - 1]
  {
    if !conv.initialized || sequence > conv.published {
      DrainedKeeps(conv.(initialized := true, published := sequence, pending := Newer(conv.pending, sequence)), log);
    }
  }

  ghost predicate HandlersInv(handlers: map<nat, Handler>, log: seq<Event>, allows: Body -> bool) {
    forall id :: id in handlers ==> HandlerInv(handlers[id], log, allows)
  }

  lemma EnterReplayKeeps(h: Handler, log: seq<Event>, allows: Body -> bool, through: nat, purpose: Purpose)
    requires Genuine(h.sub.pending, log) && WalkedExactly(h, log, allows) && through <= |log|
    ensures HandlerInv(EnterReplay(h, through, purpose), log, allows)
  {
    var h1 := EnterReplay(h, through, purpose);
    assert WalkedExactly(h1, log, allows);
  }

  lemma NothingWalkedYet(h: Handler, log: seq<Event>, allows: Body -> bool)
    requires h.last == h.after <= |log| && h.emitted == []
    ensures WalkedExactly(h, log, allows)
  {
    assert log[h.after..h.after] == [];
  }

  lemma JoiningKeeps(conv: Option<Conv>, high: nat, log: seq<Event>)
    requires conv.Some? ==> ConvInv(conv.value, log)
    requires high <= |log|
    ensures var join := Joining(conv, high);
      && (join.conv.Some? ==> ConvInv(join.conv.value, log)) && high <= join.through <= |log|
      && forall e :: e in join.events ==> 1 <= e.sequence <= |log| && e == log[e.sequence - 1]
  {
    if conv.Some? {
      WentLiveKeeps(conv.value, high, log);
    }
  }

  lemma JoinedKeeps(h: Handler, conv: Option<Conv>, log: seq<Event>, env: Env)
    requires HandlerInv(h, log, env.allows) && h.phase.WatermarkCaptured?
    requires conv.Some? ==> ConvInv(conv.value, log)
    ensures HandlerInv(Joined(h, conv, env.size), log, env.allows)
  {
    var high := h.phase.high;
    JoiningKeeps(conv, high, log);
    JoinedSubIsGenuine(h, conv, high, log, env.size);
    var h1 := h.(sub := JoinedSub(h, conv, high, env.size));
    hide Joining, JoinedSub, GoLive, EnqueueAll, EnterReplay, Genuine, ConvInv, WentLive;
    if h.after <= high {
      NothingWalkedYet(h1, log, env.allows);
      EnterReplayKeeps(h1, log, env.allows, Joining(conv, high).through, Initial);
    }
  }

  lemma JoinedSubIsGenuine(h: Handler, conv: Option<Conv>, high: nat, log: seq<Event>, size: Event -> nat)
    requires Genuine(h.sub.pending, log) && high <= |log|
    requires conv.Some? ==> ConvInv(conv.value, log)
    ensures Genuine(JoinedSub(h, conv, high, size).pending, log)
  {
    JoiningKeeps(conv, high, log);
    LiveIsGenuine(h.sub, high, log, size);
    hide Joining, ConvInv, Genuine, GoLive;
    EnqueuedIsGenuine(GoLive(h.sub, high, size), Joining(conv, high).events, log, size);
  }

  lemma LiveIsGenuine(s: Sub, high: nat, log: seq<Event>, size: Event -> nat)
    requires Genuine(s.pending, log)
    ensures Genuine(GoLive(s, high, size).pending, log) && Genuine(MarkedReset(s, AgentShutdown).pending, log)
  {
  }

  lemma EnqueuedIsGenuine(s: Sub, events: seq<Event>, log: seq<Event>, size: Event -> nat)
    requires Genuine(s.pending, log)
    requires forall e :: e in events ==> 1 <= e.sequence <= |log| && e == log[e.sequence - 1]
    ensures Genuine(EnqueueAll(s, events, size).pending, log)
  {
    EnqueueAllEffect(s, events, size);
    hide EnqueueAll;
  }

  /** Where a handler stands once the rows of a page are walked. */
  lemma PageWalkKeeps(
    h: Handler, page: Page, rows: seq<Event>, log: seq<Event>, allows: Body -> bool, accepts: nat, through: nat)
    requires WalkedExactly(h, log, allows) && h.last <= through <= |log|
    requires Ordered(rows) && IsPage(rows, h.last, page) && !page.resetRequired
    requires forall r :: r in rows ==> 1 <= r.sequence <= |log| && log[r.sequence - 1] == r
    ensures var w := WalkPage(page.items, h.last, through, allows, accepts);
      w.last <= through && WalkedExactly(h.(last := w.last, emitted := h.emitted + w.emitted), log, allows)
  {
    var k := AfterIsSuffix(rows, h.last);
    forall e | e in page.items ensures e in rows {
      var i :| 0 <= i < |page.items| && page.items[i] == e;
      assert page.items[i] == After(rows, h.last)[i] == rows[k + i];
    }
    WalkIsExact(page.items, h.last, through, allows, accepts, log);
    var w := WalkPage(page.items, h.last, through, allows, accepts);
    WalkExtends(h, log, allows, w.last, w.emitted);
  }

  lemma AfterPageKeeps(h: Handler, page: Page, log: seq<Event>, allows: Body -> bool, accepts: nat)
    requires HandlerInv(h, log, allows) && h.phase.Replaying?
    requires !page.resetRequired && page.items != [] ==>
      var w := WalkPage(page.items, h.last, h.phase.through, allows, accepts);
      w.last <= h.phase.through && WalkedExactly(h.(last := w.last, emitted := h.emitted + w.emitted), log, allows)
    ensures HandlerInv(AfterPage(h, page, allows, accepts), log, allows)
  {
    if !page.resetRequired && page.items != [] {
      var w := WalkPage(page.items, h.last, h.phase.through, allows, accepts);
      var h1 := h.(last := w.last, emitted := h.emitted + w.emitted);
      EnterReplayKeeps(h1, log, allows, h.phase.through, h.phase.purpose);
      assert forall o :: WalkedExactly(h1.(phase := Done(o)), log, allows);
    }
  }

  /** The cursor and the frames after taking the expected event. */
  lemma TakeWalks(h: Handler, event: Event, log: seq<Event>, allows: Body -> bool)
    requires WalkedExactly(h, log, allows) && h.last < |log| && event == log[h.last]
    ensures WalkedExactly(
      h.(last := h.last + 1, emitted := if allows(event.body) then h.emitted + [event] else h.emitted), log, allows)
  {
    assert log[h.last..h.last + 1] == [event] && [event][1..] == [];
    var more := Filtered([event], allows);
    WalkExtends(h, log, allows, h.last + 1, more);
    assert h.emitted + more == if allows(event.body) then h.emitted + [event] else h.emitted;
  }

  lemma NextIsGenuine(s: Sub, expected: nat, log: seq<Event>, size: Event -> nat)
    requires Genuine(s.pending, log)
    ensures Genuine(AfterNext(s, expected, size).pending, log)
    ensures NextFor(s, expected).Gap? ==> expected < NextFor(s, expected).minimum <= |log|
    ensures NextFor(s, expected).Delivered? ==>
      1 <= expected <= |log| && NextFor(s, expected).event == log[expected - 1]
      && NextFor(s, expected).event.sequence == expected
  {
  }

  lemma AfterTakeKeeps(h: Handler, log: seq<Event>, allows: Body -> bool, accepts: bool, size: Event -> nat)
    requires HandlerInv(h, log, allows) && h.phase.Following?
    ensures HandlerInv(AfterTake(h, allows, accepts, size), log, allows)
  {
    NextIsGenuine(h.sub, h.last + 1, log, size);
    assert Genuine(h.sub.pending, log) && WalkedExactly(h, log, allows);
    hide Genuine, WalkedExactly, HandlerInv;
    match NextFor(h.sub, h.last + 1)
    case Delivered(event) => TakeDeliveredKeeps(h, event, log, allows, accepts, size);
    case Gap(minimum) => TakeGapKeeps(h, log, allows, accepts, size);
    case _ => TakeNothingKeeps(h, log, allows, accepts, size);
  }

  lemma TakeGapKeeps(h: Handler, log: seq<Event>, allows: Body -> bool, accepts: bool, size: Event -> nat)
    requires WalkedExactly(h, log, allows) && h.phase.Following?
    requires Genuine(AfterNext(h.sub, h.last + 1, size).pending, log)
    requires NextFor(h.sub, h.last + 1).Gap? && h.last + 1 < NextFor(h.sub, h.last + 1).minimum <= |log|
    ensures HandlerInv(AfterTake(h, allows, accepts, size), log, allows)
  {
    var h1 := h.(sub := AfterNext(h.sub, h.last + 1, size));
    SameWalk(h, h1, log, allows);
    EnterReplayKeeps(h1, log, allows, NextFor(h.sub, h.last + 1).minimum - 1, GapFill);
  }

  lemma TakeNothingKeeps(h: Handler, log: seq<Event>, allows: Body -> bool, accepts: bool, size: Event -> nat)
    requires WalkedExactly(h, log, allows) && h.phase.Following?
    requires Genuine(AfterNext(h.sub, h.last + 1, size).pending, log)
    requires !NextFor(h.sub, h.last + 1).Gap? && !NextFor(h.sub, h.last + 1).Delivered?
    ensures HandlerInv(AfterTake(h, allows, accepts, size), log, allows)
  {
    SameWalk(h, AfterTake(h, allows, accepts, size), log, allows);
  }

  lemma TakeDeliveredKeeps(
    h: Handler, event: Event, log: seq<Event>, allows: Body -> bool, accepts: bool, size: Event -> nat)
    requires WalkedExactly(h, log, allows) && h.phase.Following?
    requires Genuine(AfterNext(h.sub, h.last + 1, size).pending, log)
    requires NextFor(h.sub, h.last + 1) == ConversationStream.Delivered(event)
    requires h.last < |log| && event == log[h.last] && event.sequence == h.last + 1
    ensures HandlerInv(AfterTake(h, allows, accepts, size), log, allows)
  {
    var h' := AfterTake(h, allows, accepts, size);
    if allows(event.body) && !accepts {
      SameWalk(h, h', log, allows);
    } else {
      TakeWalks(h, event, log, allows);
      SameWalk(h.(last := h.last + 1, emitted := if allows(event.body) then h.emitted + [event] else h.emitted),
               h', log, allows);
    }
  }

  lemma SameWalk(h: Handler, h': Handler, log: seq<Event>, allows: Body -> bool)
    requires WalkedExactly(h, log, allows) && h'.after == h.after && h'.last == h.last && h'.emitted == h.emitted
    ensures WalkedExactly(h', log, allows)
  {
  }

  lemma LocalKeeps(h: Handler, step: LocalStep, rows: seq<Event>, log: seq<Event>, env: Env)
    requires HandlerInv(h, log, env.allows) && Enabled(h, step, rows)
    requires LedgerInv(Ledger(rows, log))
    ensures HandlerInv(AfterLocal(h, step, rows, env), log, env.allows)
  {
    match step
    case ReadPage(page, accepts) =>
      if !page.resetRequired {
        PageWalkKeeps(h, page, rows, log, env.allows, accepts, h.phase.through);
      }
      AfterPageKeeps(h, page, log, env.allows, accepts);
    case Take(takes) => AfterTakeKeeps(h, log, env.allows, takes, env.size);
    case Finish => EnterReplayKeeps(h, log, env.allows, Latest(rows), Final);
    case Capture =>
    case CheckState(_) =>
    case Cancel =>
  }

  lemma UpdateKeeps(handlers: map<nat, Handler>, id: nat, h: Handler, log: seq<Event>, allows: Body -> bool)
    requires HandlersInv(handlers, log, allows) && HandlerInv(h, log, allows)
    ensures HandlersInv(handlers[id := h], log, allows)
  {
  }

  /** A step of the hub or of one handler leaves the store alone. */
  lemma QuietStepKeeps(w: World, w': World, a: Action, env: Env, rows: seq<Event>, log: seq<Event>)
    requires !a.Commit? && Next(w, w', a, env)
    requires rows == w.c.ledger.rows && log == w.c.ledger.log && LedgerInv(Ledger(rows, log))
    requires w.conv.Some? ==> ConvInv(w.conv.value, log)
    requires HandlersInv(w.handlers, log, env.allows)
    ensures w'.c == w.c && HandlersInv(w'.handlers, log, env.allows)
    ensures w'.conv.Some? ==> ConvInv(w'.conv.value, log)
  {
    hide HandlerInv, WalkedExactly;
    match a
    case Publish(s) =>
      if w.conv.Some? {
        PublishedKeeps(w.conv.value, log[s - 1], log);
        FannedKeeps(w.handlers, Published(w.conv.value, log[s - 1]).1, log, env);
      }
    case PumpReset(reason) => ResetKeeps(w.handlers, reason, log, env.allows);
    case CloseHub => ResetKeeps(w.handlers, AgentShutdown, log, env.allows);
    case RefusedSubscribe =>
    case Attach(id, after, generationId) =>
      ArrivingKeeps(after, generationId, log, env.allows);
      UpdateKeeps(w.handlers, id, Handler(after, generationId, after, [], Registered, true, NEW_SUB), log, env.allows);
    case BeginLive(id) =>
      var high := w.handlers[id].phase.high;
      CapturedWithinHistory(w.handlers[id], log, env.allows);
      JoiningKeeps(w.conv, high, log);
      FannedKeeps(w.handlers, Joining(w.conv, high).events, log, env);
      JoinedKeeps(w.handlers[id], w.conv, log, env);
      UpdateKeeps(Fanned(w.handlers, Joining(w.conv, high).events, env.size), id,
                  Joined(w.handlers[id], w.conv, env.size), log, env.allows);
    case Local(id, step) =>
      LocalKeeps(w.handlers[id], step, rows, log, env);
      UpdateKeeps(w.handlers, id, AfterLocal(w.handlers[id], step, rows, env), log, env.allows);
    case Detach(id) =>
      DetachedKeeps(w.handlers[id], log, env.allows);
      UpdateKeeps(w.handlers, id, w.handlers[id].(attached := false, sub := w.handlers[id].sub.(closed := true)),
                  log, env.allows);
  }

  lemma CapturedWithinHistory(h: Handler, log: seq<Event>, allows: Body -> bool)
    requires HandlerInv(h, log, allows) && h.phase.WatermarkCaptured?
    ensures h.phase.high <= |log|
  {
  }

  lemma ArrivingKeeps(after: nat, generationId: Id, log: seq<Event>, allows: Body -> bool)
    ensures HandlerInv(Handler(after, generationId, after, [], Registered, true, NEW_SUB), log, allows)
  {
  }

  lemma DetachedKeeps(h: Handler, log: seq<Event>, allows: Body -> bool)
    requires HandlerInv(h, log, allows) && h.phase.Done?
    ensures HandlerInv(h.(attached := false, sub := h.sub.(closed := true)), log, allows)
  {
    if WalkedExactly(h, log, allows) {
      SameWalk(h, h.(attached := false, sub := h.sub.(closed := true)), log, allows);
    }
  }

  lemma ResetKeeps(handlers: map<nat, Handler>, reason: Reason, log: seq<Event>, allows: Body -> bool)
    requires HandlersInv(handlers, log, allows)
    ensures HandlersInv(ResetHandlers(handlers, reason), log, allows)
  {
    forall id | id in handlers ensures HandlerInv(ResetHandlers(handlers, reason)[id], log, allows) {
      var h, h' := handlers[id], ResetHandlers(handlers, reason)[id];
      if WalkedExactly(h, log, allows) {
        SameWalk(h, h', log, allows);
      }
    }
  }

  lemma NextKeepsInv(w: World, w': World, a: Action, env: Env)
    requires WorldInv(w, env.allows) && Next(w, w', a, env)
    ensures WorldInv(w', env.allows)
    ensures w.c.ledger.log <= w'.c.ledger.log && Extends(w.c, w'.c)
  {
    var log := w.c.ledger.log;
    if a.Commit? {
      StepKeeps(w.c, w'.c, a.op, env.encode);
      forall id | id in w'.handlers ensures HandlerInv(w'.handlers[id], w'.c.ledger.log, env.allows) {
        HandlerInvGrows(w.handlers[id], log, w'.c.ledger.log, env.allows);
      }
    } else {
      ExtendsRefl(w.c);
      QuietStepKeeps(w, w', a, env, w.c.ledger.rows, log);
    }
  }

  lemma {:induction false} BehaviorKeepsInv(tr: seq<World>, actions: seq<Action>, env: Env, i: nat)
    requires Behavior(tr, actions, env) && i < |tr|
    ensures WorldInv(tr[i], env.allows)
  {
    if i == 0 {
      StartedKeeps(tr[0].c);
    } else {
      BehaviorKeepsInv(tr, actions, env, i - 1);
      NextKeepsInv(tr[i - 1], tr[i], actions[i - 1], env);
    }
  }

  /** In every interleaving and for every number of handlers: the frames a
    * handler has emitted are the history between its cursor and the last
    * sequence it walked, filtered by the event contract - no skip, duplicate or
    * reordering - unless it emitted nothing at all. */
  lemma AttachIsExact(tr: seq<World>, actions: seq<Action>, env: Env, i: nat, id: nat)
    requires Behavior(tr, actions, env) && i < |tr| && id in tr[i].handlers
    ensures var h := tr[i].handlers[id];
      || (h.emitted == [] && h.last == h.after)
      || (h.after <= h.last <= |tr[i].c.ledger.log|
          && h.emitted == Filtered(tr[i].c.ledger.log[h.after..h.last], env.allows))
  {
    BehaviorKeepsInv(tr, actions, env, i);
  }
}
