/** The event.subscribe protocol: appenders, the pump, and any number of
  * subscribers, each step atomic.  The pump holds the store mutex through one
  * synchronization, so nothing is appended while it runs.
  */
module AgentSubscription {
  import opened Wrappers
  import opened AgentEventStream

  /** One subscriber: a bounded channel, at most one record received from it but
    * not yet consumed, and the byte counter of both. */
  datatype Sub = Sub(
    closed: bool, reset: Option<ResetReason>, live: bool, suppressThrough: nat,
    queue: seq<Record>, received: Option<Record>, queueBytes: nat)

  const NEW_SUB: Sub := Sub(false, None, false, 0, [], None, 0)

  datatype Outcome = ResetBy(reason: ResetReason) | Cancelled | Shutdown

  datatype Phase =
    | Subscribed
    | FirstRead(high: nat)
    | Armed
    | Counted
    | Listing
    | Streaming
    | Done(outcome: Outcome)

  /** `second` is the second watermark, the one the replay goes through. */
  datatype Handler = Handler(
    after: Option<nat>, last: nat, emitted: seq<Record>, phase: Phase, second: nat, attached: bool, sub: Sub)

  datatype Pump =
    | PumpIdle
    | Sending(todo: seq<Record>)
    | Fanning(current: Record, targets: set<nat>, todo: seq<Record>)

  datatype World = World(
    rows: seq<Record>, log: seq<Record>, published: Option<nat>, hubClosed: bool, pump: Pump,
    handlers: map<nat, Handler>)

  // ----- the subscriber -----

  function Pending(s: Sub): seq<Record> {
    (if s.received.Some? then [s.received.value] else []) + s.queue
  }

  function Offered(s: Sub, r: Record): Sub {
    if s.closed || s.reset.Some? || !s.live || r.sequence <= s.suppressThrough then s
    else if |s.queue| >= MAXIMUM_QUEUE_COUNT || s.queueBytes + |r.payload| > MAXIMUM_QUEUE_BYTES then
      s.(reset := Some(SlowConsumer))
    else s.(queue := s.queue + [r], queueBytes := s.queueBytes + |r.payload|)
  }

  function ArmedAt(s: Sub, sequence: nat): Sub {
    if s.closed then s else s.(live := true, suppressThrough := sequence)
  }

  function Consumed(s: Sub): Sub
    requires s.received.Some?
  {
    var bytes := |s.received.value.payload|;
    s.(received := None, queueBytes := if s.queueBytes < bytes then 0 else s.queueBytes - bytes)
  }

  function Bytes(records: seq<Record>): nat {
    if records == [] then 0 else Bytes(records[..|records| - 1]) + |records[|records| - 1].payload|
  }

  class Subscriber {
    var closed: bool
    var reset: bool
    var resetReason: ResetReason
    var live: bool
    var suppressThrough: nat
    var queueBytes: nat
    var events: seq<Record>
    var received: Option<Record>

    constructor ()
      ensures View() == NEW_SUB
    {
      closed, reset, resetReason, live, suppressThrough := false, false, HubShutdown, false, 0;
      queueBytes, events, received := 0, [], None;
    }

    function View(): Sub
      reads this
    {
      Sub(closed, if reset then Some(resetReason) else None, live, suppressThrough, events, received, queueBytes)
    }

    method Enqueue(record: Record)
      modifies this
      ensures View() == Offered(old(View()), record)
    {
      var bytes := |record.payload|;
      if closed || reset || !live || record.sequence <= suppressThrough {
        return;
      }
      if |events| >= MAXIMUM_QUEUE_COUNT || queueBytes + bytes > MAXIMUM_QUEUE_BYTES {
        reset := true;
        resetReason := SlowConsumer;
        return;
      }
      events := events + [record];
      queueBytes := queueBytes + bytes;
    }

    method BeginLiveAt(sequence: nat)
      modifies this
      ensures View() == ArmedAt(old(View()), sequence)
    {
      if !closed {
        suppressThrough := sequence;
        live := true;
      }
    }

    /** The channel receive of the select loop. */
    method Receive() returns (r: Option<Record>)
      requires received.None?
      modifies this
      ensures old(events) == [] ==> r == None && View() == old(View())
      ensures old(events) != [] ==>
        r == Some(old(events)[0]) && View() == old(View()).(queue := old(events)[1..], received := r)
    {
      if events == [] {
        return None;
      }
      received := Some(events[0]);
      events := events[1..];
      r := received;
    }

    method Consume() returns (open: bool)
      requires received.Some?
      modifies this
      ensures View() == Consumed(old(View())) && open == !closed
    {
      var bytes := |received.value.payload|;
      received := None;
      queueBytes := if queueBytes < bytes then 0 else queueBytes - bytes;
      open := !closed;
    }
  }

  // ----- the handler's own steps -----

  datatype LocalStep =
    | ReadFirst
    | Arm
    | ReadSecond
    | ReadMinimum
    | Replay(accepted: nat)
    | SeeReset
    | Receive
    | Consume(takes: bool)
    | Cancel

  predicate Enabled(h: Handler, step: LocalStep) {
    match step
    case ReadFirst => h.phase.Subscribed?
    case Arm => h.phase.FirstRead?
    case ReadSecond => h.phase.Armed?
    case ReadMinimum => h.phase.Counted?
    case Replay(_) => h.phase.Listing?
    case SeeReset => h.phase.Streaming? && h.sub.reset.Some?
    case Receive => h.phase.Streaming? && h.sub.received.None? && h.sub.queue != []
    case Consume(_) => h.phase.Streaming? && h.sub.received.Some?
    case Cancel => !h.phase.Done?
  }

  /** The reset test.  The minimum comes from its own read, so it may be newer
    * than the second watermark. */
  function AfterSecondRead(h: Handler, minimum: nat): Handler {
    if h.after.None? then h.(phase := Done(ResetBy(ReplayBootstrap)))
    else if h.after.value > h.second then h.(phase := Done(ResetBy(ReplayGap)))
    else if h.after.value + 1 < minimum then h.(phase := Done(ResetBy(ReplayRetention)))
    else h.(last := h.after.value, phase := if h.after.value < h.second then Listing else Streaming)
  }

  /** The direct replay; the peer takes `accepted` frames before it fails. */
  function AfterReplay(h: Handler, rows: seq<Record>, accepted: nat): Handler {
    var events := Between(rows, h.last, h.second);
    if !IsWholeRange(events, h.last, h.second) then h.(phase := Done(ResetBy(ReplayGap)))
    else if accepted < |events| then
      h.(emitted := h.emitted + events[..accepted], last := h.last + accepted, phase := Done(Cancelled))
    else h.(emitted := h.emitted + events, last := h.second, phase := Streaming)
  }

  function AfterConsume(h: Handler, accepted: bool): Handler
    requires h.sub.received.Some?
  {
    var event := h.sub.received.value;
    var h1 := h.(sub := Consumed(h.sub));
    if h.sub.closed then h1.(phase := Done(Shutdown))
    else if event.sequence <= h.last then h1
    else if event.sequence != h.last + 1 then h1.(phase := Done(ResetBy(ReplayGap)))
    else if !accepted then h1.(phase := Done(Cancelled))
    else h1.(emitted := h.emitted + [event], last := event.sequence)
  }

  function AfterLocal(h: Handler, step: LocalStep, rows: seq<Record>, high: nat): Handler
    requires Enabled(h, step)
  {
    match step
    case ReadFirst => h.(phase := FirstRead(high))
    case Arm => h.(sub := ArmedAt(h.sub, h.phase.high), phase := Armed)
    case ReadSecond => h.(second := high, phase := Counted)
    case ReadMinimum => AfterSecondRead(h, InfoOf(rows, h.second).minimum)
    case Replay(accepted) => AfterReplay(h, rows, accepted)
    case SeeReset => h.(phase := Done(if h.sub.reset.value.HubShutdown? then Shutdown else ResetBy(h.sub.reset.value)))
    case Receive => h.(sub := h.sub.(received := Some(h.sub.queue[0]), queue := h.sub.queue[1..]))
    case Consume(takes) => AfterConsume(h, takes)
    case Cancel => h.(phase := Done(Cancelled))
  }

  // ----- the transition system -----

  datatype Action =
    | Append(payload: string, now: int)
    | PumpStart
    | PumpPublish
    | PumpFan(id: nat)
    | PumpNext
    | PumpDone
    | Subscribe(id: nat, after: Option<nat>)
    | Local(id: nat, step: LocalStep)
    | Detach(id: nat)
    | CloseHub

  function Attached(handlers: map<nat, Handler>): set<nat> {
    set id | id in handlers && handlers[id].attached
  }

  function ShutDown(handlers: map<nat, Handler>): map<nat, Handler> {
    map id | id in handlers ::
      if handlers[id].attached
      then handlers[id].(sub := handlers[id].sub.(closed := true, reset := Some(HubShutdown))) else handlers[id]
  }

  ghost predicate Next(w: World, w': World, a: Action) {
    match a
    case Append(payload, now) =>
      && w.pump.PumpIdle?
      && w' == w.(rows := AppendedRows(w.rows, |w.log|, payload, now), log := w.log + [Record(|w.log| + 1, payload, now)])
    case PumpStart =>
      && w.pump.PumpIdle? && w.published.Some? && w.published.value < |w.log|
      && w' == w.(pump := Sending(Between(w.rows, w.published.value, |w.log|)))
    case PumpPublish =>
      && w.pump.Sending? && w.pump.todo != []
      && var e, rest := w.pump.todo[0], w.pump.todo[1..];
         w' == (if w.published.None? || e.sequence <= w.published.value then w.(pump := Sending(rest))
                else w.(published := Some(e.sequence), pump := Fanning(e, Attached(w.handlers), rest)))
    case PumpFan(id) =>
      && w.pump.Fanning? && id in w.pump.targets && id in w.handlers
      && w' == w.(pump := w.pump.(targets := w.pump.targets - {id}),
                  handlers := w.handlers[id := w.handlers[id].(sub := Offered(w.handlers[id].sub, w.pump.current))])
    case PumpNext =>
      w.pump.Fanning? && w.pump.targets == {} && w' == w.(pump := Sending(w.pump.todo))
    case PumpDone =>
      w.pump == Sending([]) && w' == w.(pump := PumpIdle)
    case Subscribe(id, after) =>
      && id !in w.handlers && !w.hubClosed
      && w' == w.(published := if w.published.None? then Some(0) else w.published,
                  handlers := w.handlers[id := Handler(after, 0, [], Subscribed, 0, true, NEW_SUB)])
    case Local(id, step) =>
      && id in w.handlers && Enabled(w.handlers[id], step)
      && w' == w.(handlers := w.handlers[id := AfterLocal(w.handlers[id], step, w.rows, |w.log|)])
    case Detach(id) =>
      && id in w.handlers && w.handlers[id].attached && w.handlers[id].phase.Done?
      && var handlers := w.handlers[id := w.handlers[id].(attached := false, sub := w.handlers[id].sub.(closed := true))];
         w' == w.(handlers := handlers, published := if Attached(handlers) == {} then None else w.published)
    case CloseHub =>
      !w.hubClosed && w' == w.(hubClosed := true, published := None, handlers := ShutDown(w.handlers))
  }

  ghost predicate Init(w: World) {
    w == World([], [], None, false, PumpIdle, map[])
  }

  ghost predicate Behavior(tr: seq<World>, actions: seq<Action>) {
    && |tr| == |actions| + 1 && Init(tr[0])
    && (forall i :: 0 <= i < |actions| ==> Next(tr[i], tr[i + 1], actions[i]))
  }

  // ----- invariants -----

  ghost predicate Genuine(records: seq<Record>, log: seq<Record>) {
    && Increasing(records)
    && forall r :: r in records ==> 1 <= r.sequence <= |log| && r == log[r.sequence - 1]
  }

  /** The frames are exactly the history between the cursor and `last`. */
  ghost predicate Exact(h: Handler, log: seq<Record>) {
    h.after.Some? && h.after.value <= h.last <= |log| && h.emitted == log[h.after.value..h.last]
  }

  ghost predicate QueueInv(s: Sub, log: seq<Record>) {
    && Genuine(Pending(s), log)
    && s.queueBytes == Bytes(Pending(s)) <= MAXIMUM_QUEUE_BYTES
    && |s.queue| <= MAXIMUM_QUEUE_COUNT
  }

  /** From the second watermark on. */
  predicate Reads(phase: Phase) {
    phase.Counted? || phase.Listing? || phase.Streaming?
  }

  /** A live subscriber suppresses at most what its replay covers. */
  ghost predicate PhaseInv(h: Handler, log: seq<Record>) {
    match h.phase
    case Subscribed => h.emitted == [] && !h.sub.live
    case FirstRead(high) => h.emitted == [] && !h.sub.live && high <= |log|
    case Armed => h.emitted == [] && (h.sub.live ==> h.sub.suppressThrough <= |log|)
    case Counted => h.emitted == [] && h.second <= |log| && (h.sub.live ==> h.sub.suppressThrough <= h.second)
    case Listing =>
      && Exact(h, log) && h.after == Some(h.last) && h.last < h.second <= |log|
      && (h.sub.live ==> h.sub.suppressThrough <= h.second)
    case Streaming => Exact(h, log) && h.second <= h.last && (h.sub.live ==> h.sub.suppressThrough <= h.second)
    case Done(_) => h.emitted == [] || Exact(h, log)
  }

  ghost predicate LifeInv(h: Handler) {
    && (!h.phase.Done? || !h.sub.closed ==> h.attached)
    && (!h.sub.closed && (h.phase.Armed? || Reads(h.phase)) ==> h.sub.live)
  }

  ghost predicate HandlerInv(h: Handler, log: seq<Record>) {
    QueueInv(h.sub, log) && PhaseInv(h, log) && LifeInv(h)
  }

  /** Everything published is covered by the replay, walked already, or ends the
    * queue, while the subscription runs. */
  ghost predicate Covered(h: Handler, p: nat) {
    h.sub.live && h.sub.reset.None? && Reads(h.phase) ==>
      || p <= h.second || (!h.phase.Counted? && p <= h.last)
      || (Pending(h.sub) != [] && Pending(h.sub)[|Pending(h.sub)| - 1].sequence == p)
  }

  ghost predicate Below(records: seq<Record>, limit: nat) {
    forall r :: r in records ==> r.sequence < limit
  }

  /** How an open subscription relates to the published sequence p: all of it is
    * covered, unless the pump is just about to hand over p itself. */
  ghost predicate Frontier(h: Handler, p: nat, targeted: bool) {
    if targeted then Below(Pending(h.sub), p) else Below(Pending(h.sub), p + 1) && Covered(h, p)
  }

  predicate Targeted(pump: Pump, id: nat) {
    pump.Fanning? && id in pump.targets
  }

  ghost predicate HubInv(h: Handler, published: Option<nat>, targeted: bool) {
    !h.sub.closed ==> published.Some? && Frontier(h, published.value, targeted)
  }

  ghost predicate Upcoming(todo: seq<Record>, log: seq<Record>) {
    Genuine(todo, log) && (todo != [] ==> todo[|todo| - 1].sequence == |log|)
  }

  ghost predicate PumpInv(pump: Pump, log: seq<Record>, published: Option<nat>, handlers: map<nat, Handler>) {
    match pump
    case PumpIdle => true
    case Sending(todo) => Upcoming(todo, log)
    case Fanning(e, targets, todo) =>
      && Upcoming(todo, log) && targets <= handlers.Keys
      && 1 <= e.sequence <= |log| && e == log[e.sequence - 1]
      && (forall id :: id in targets && !handlers[id].sub.closed ==> published == Some(e.sequence))
  }

  ghost predicate HandlersInv(handlers: map<nat, Handler>, log: seq<Record>) {
    forall id :: id in handlers ==> HandlerInv(handlers[id], log)
  }

  ghost predicate HubsInv(handlers: map<nat, Handler>, published: Option<nat>, pump: Pump) {
    forall id :: id in handlers ==> HubInv(handlers[id], published, Targeted(pump, id))
  }

  ghost predicate WorldInv(w: World) {
    && JournalInv(w.rows, w.log)
    && (w.published.Some? ==> w.published.value <= |w.log|)
    && PumpInv(w.pump, w.log, w.published, w.handlers)
    && HandlersInv(w.handlers, w.log)
    && HubsInv(w.handlers, w.published, w.pump)
  }

  // ----- the queue -----

  lemma BytesPushed(records: seq<Record>, r: Record)
    ensures Bytes(records + [r]) == Bytes(records) + |r.payload|
  {
    assert (records + [r])[..|records|] == records;
  }

  lemma {:induction false} BytesPopped(r: Record, records: seq<Record>)
    ensures Bytes([r] + records) == |r.payload| + Bytes(records)
  {
    if records == [] {
      assert [r] + records == [] + [r];
      BytesPushed([], r);
    } else {
      var n := |records| - 1;
      BytesPopped(r, records[..n]);
      assert ([r] + records)[..n + 1] == [r] + records[..n];
    }
  }

  predicate Accepts(s: Sub, r: Record) {
    && !s.closed && s.reset.None? && s.live && r.sequence > s.suppressThrough
    && |s.queue| < MAXIMUM_QUEUE_COUNT && s.queueBytes + |r.payload| <= MAXIMUM_QUEUE_BYTES
  }

  lemma OfferedPending(s: Sub, e: Record)
    ensures Pending(Offered(s, e)) == if Accepts(s, e) then Pending(s) + [e] else Pending(s)
  {
    assert Accepts(s, e) ==> Pending(Offered(s, e)) == Pending(s) + [e];
  }

  lemma OfferedKeepsQueue(s: Sub, e: Record, log: seq<Record>)
    requires QueueInv(s, log)
    requires 1 <= e.sequence <= |log| && e == log[e.sequence - 1]
    requires !s.closed ==> Below(Pending(s), e.sequence)
    ensures QueueInv(Offered(s, e), log)
  {
    OfferedPending(s, e);
    hide Genuine, Pending, Bytes;
    if Accepts(s, e) {
      BytesPushed(Pending(s), e);
      GenuineGrows(Pending(s), e, log);
    } else {
      SameQueueKeeps(s, Offered(s, e), log);
    }
  }

  lemma SameQueueKeeps(s: Sub, s': Sub, log: seq<Record>)
    requires QueueInv(s, log) && s'.queueBytes == s.queueBytes && s'.queue == s.queue && Pending(s') == Pending(s)
    ensures QueueInv(s', log)
  {
    hide Genuine, Pending, Bytes;
  }

  lemma GenuineGrows(records: seq<Record>, e: Record, log: seq<Record>)
    requires Genuine(records, log) && Below(records, e.sequence)
    requires 1 <= e.sequence <= |log| && e == log[e.sequence - 1]
    ensures Genuine(records + [e], log)
  {
    forall i | 0 <= i < |records| ensures records[i].sequence < e.sequence {
      assert records[i] in records;
    }
  }

  lemma OfferedKeepsLife(s: Sub, e: Record)
    ensures var s' := Offered(s, e);
      s'.closed == s.closed && s'.live == s.live && s'.suppressThrough == s.suppressThrough
  {
  }

  lemma OfferKeeps(h: Handler, e: Record, log: seq<Record>)
    requires HandlerInv(h, log)
    requires 1 <= e.sequence <= |log| && e == log[e.sequence - 1]
    requires !h.sub.closed ==> Below(Pending(h.sub), e.sequence)
    ensures HandlerInv(h.(sub := Offered(h.sub, e)), log)
  {
    OfferedKeepsQueue(h.sub, e, log);
    OfferedKeepsLife(h.sub, e);
    hide QueueInv, Offered;
  }

  /** A record offered to an open subscription becomes covered. */
  lemma OfferCovers(h: Handler, e: Record, log: seq<Record>)
    requires PhaseInv(h, log) && !h.sub.closed && Below(Pending(h.sub), e.sequence)
    ensures Frontier(h.(sub := Offered(h.sub, e)), e.sequence, false)
  {
    OfferedPending(h.sub, e);
    hide Pending;
  }

  lemma PopKeepsGenuine(e: Record, rest: seq<Record>, log: seq<Record>)
    requires Genuine([e] + rest, log)
    ensures Genuine(rest, log) && 1 <= e.sequence <= |log| && e == log[e.sequence - 1]
  {
    assert forall i :: 0 <= i < |rest| ==> rest[i] == ([e] + rest)[i + 1];
    assert e in [e] + rest;
  }

  // ----- the handler's steps -----

  lemma SlicesJoin(log: seq<Record>, a: nat, b: nat, c: nat, n: nat)
    requires a <= b <= c <= |log| && n <= c - b
    ensures log[b..c][..n] == log[b..b + n] && log[a..b] + log[b..b + n] == log[a..b + n]
  {
  }

  lemma ReplayKeeps(h: Handler, rows: seq<Record>, log: seq<Record>, accepted: nat)
    requires PhaseInv(h, log) && h.phase.Listing? && JournalInv(rows, log)
    ensures PhaseInv(AfterReplay(h, rows, accepted), log)
  {
    hide Between, IsWholeRange, JournalInv;
    if IsWholeRange(Between(rows, h.last, h.second), h.last, h.second) {
      RangeIsHistory(rows, log, h.last, h.second);
      var n := if accepted < h.second - h.last then accepted else h.second - h.last;
      SlicesJoin(log, h.after.value, h.last, h.second, n);
      SlicesJoin(log, h.after.value, h.last, h.second, h.second - h.last);
    }
  }

  lemma RangeIsHistory(rows: seq<Record>, log: seq<Record>, after: nat, through: nat)
    requires JournalInv(rows, log) && after <= through <= |log|
    requires IsWholeRange(Between(rows, after, through), after, through)
    ensures Between(rows, after, through) == log[after..through]
  {
    var events := Between(rows, after, through);
    forall r ensures r in events <==> r in rows && after < r.sequence <= through {
      BetweenMembers(rows, after, through, r);
    }
    hide Between, Increasing;
    NumberedRecords(events, log, after);
  }

  lemma NumberedRecords(events: seq<Record>, log: seq<Record>, after: nat)
    requires after + |events| <= |log|
    requires forall r :: r in events ==> 1 <= r.sequence <= |log| && r == log[r.sequence - 1]
    requires forall i :: 0 <= i < |events| ==> events[i].sequence == after + 1 + i
    ensures events == log[after..after + |events|]
  {
    forall i | 0 <= i < |events| ensures events[i] == log[after + i] {
      assert events[i] in events;
    }
  }

  lemma ReceivedPending(s: Sub)
    requires s.received.None? && s.queue != []
    ensures Pending(s.(received := Some(s.queue[0]), queue := s.queue[1..])) == Pending(s)
  {
    assert [s.queue[0]] + s.queue[1..] == s.queue;
    assert [] + s.queue == s.queue;
  }

  lemma ConsumedPending(s: Sub, log: seq<Record>)
    requires QueueInv(s, log) && s.received.Some?
    ensures Pending(s) == [s.received.value] + Pending(Consumed(s))
    ensures QueueInv(Consumed(s), log)
    ensures 1 <= s.received.value.sequence <= |log| && s.received.value == log[s.received.value.sequence - 1]
  {
    var e, rest := s.received.value, s.queue;
    assert Pending(Consumed(s)) == rest by {
      assert [] + rest == rest;
    }
    BytesPopped(e, rest);
    PopKeepsGenuine(e, rest, log);
  }

  lemma ConsumeKeeps(h: Handler, log: seq<Record>, accepted: bool)
    requires HandlerInv(h, log) && h.phase.Streaming? && h.sub.received.Some?
    ensures HandlerInv(AfterConsume(h, accepted), log)
  {
    var e := h.sub.received.value;
    ConsumedPending(h.sub, log);
    if e.sequence == h.last + 1 {
      assert log[h.after.value..h.last] + [e] == log[h.after.value..h.last + 1];
    }
    hide QueueInv, Pending;
  }

  lemma ReadMinimumKeeps(h: Handler, log: seq<Record>, minimum: nat)
    requires PhaseInv(h, log) && LifeInv(h) && h.phase.Counted?
    ensures PhaseInv(AfterSecondRead(h, minimum), log) && LifeInv(AfterSecondRead(h, minimum))
  {
    if h.after.Some? && h.after.value <= h.second {
      assert log[h.after.value..h.after.value] == [];
    }
  }

  lemma ArmKeeps(h: Handler, log: seq<Record>)
    requires HandlerInv(h, log) && h.phase.FirstRead?
    ensures HandlerInv(h.(sub := ArmedAt(h.sub, h.phase.high), phase := Armed), log)
  {
    assert Pending(ArmedAt(h.sub, h.phase.high)) == Pending(h.sub);
    hide Pending, Genuine;
  }

  lemma ReceiveKeeps(h: Handler, log: seq<Record>)
    requires HandlerInv(h, log) && Enabled(h, Receive)
    ensures HandlerInv(h.(sub := h.sub.(received := Some(h.sub.queue[0]), queue := h.sub.queue[1..])), log)
  {
    ReceivedPending(h.sub);
    hide Pending, Exact, Genuine, Bytes;
  }

  lemma LocalKeeps(h: Handler, step: LocalStep, rows: seq<Record>, log: seq<Record>)
    requires HandlerInv(h, log) && Enabled(h, step) && JournalInv(rows, log)
    ensures HandlerInv(AfterLocal(h, step, rows, |log|), log)
  {
    hide QueueInv, JournalInv;
    match step
    case Replay(accepted) =>
      ReplayKeeps(h, rows, log, accepted);
      hide PhaseInv;
    case Receive => ReceiveKeeps(h, log);
    case Consume(takes) => ConsumeKeeps(h, log, takes);
    case ReadMinimum =>
      ReadMinimumKeeps(h, log, InfoOf(rows, h.second).minimum);
      hide PhaseInv, LifeInv;
    case Arm => ArmKeeps(h, log);
    case _ =>
  }

  lemma PopKeepsBelow(e: Record, rest: seq<Record>, limit: nat)
    requires Below([e] + rest, limit)
    ensures Below(rest, limit) && e.sequence < limit
    ensures rest != [] ==> ([e] + rest)[|rest|] == rest[|rest| - 1]
  {
    assert forall r :: r in rest ==> r in [e] + rest;
    assert e in [e] + rest;
  }

  lemma ConsumeKeepsFrontier(h: Handler, log: seq<Record>, p: nat, targeted: bool, accepted: bool)
    requires HandlerInv(h, log) && h.phase.Streaming? && h.sub.received.Some?
    requires Frontier(h, p, targeted)
    ensures Frontier(AfterConsume(h, accepted), p, targeted)
  {
    ConsumedPending(h.sub, log);
    hide HandlerInv, QueueInv, PhaseInv, LifeInv, Pending, Consumed;
    PoppedFrontier(h, AfterConsume(h, accepted), h.sub.received.value, p, targeted);
  }

  lemma PoppedFrontier(h: Handler, h': Handler, e: Record, p: nat, targeted: bool)
    requires Frontier(h, p, targeted) && h.phase.Streaming? && Pending(h.sub) == [e] + Pending(h'.sub)
    requires h'.sub.live == h.sub.live && h'.sub.reset == h.sub.reset && h'.second == h.second && h.last <= h'.last
    requires h'.phase.Streaming? ==> e.sequence <= h'.last
    ensures h'.phase.Streaming? || h'.phase.Done? ==> Frontier(h', p, targeted)
  {
    PopKeepsBelow(e, Pending(h'.sub), if targeted then p else p + 1);
    hide Pending, Below;
  }

  lemma ReplayKeepsFrontier(h: Handler, rows: seq<Record>, p: nat, targeted: bool, accepted: nat)
    requires h.phase.Listing? && Frontier(h, p, targeted) && h.last <= h.second
    ensures Frontier(AfterReplay(h, rows, accepted), p, targeted)
  {
    hide Between, IsWholeRange;
    assert Pending(AfterReplay(h, rows, accepted).sub) == Pending(h.sub);
  }

  lemma FrontierCarries(h: Handler, h': Handler, p: nat, targeted: bool)
    requires Frontier(h, p, targeted) && Pending(h'.sub) == Pending(h.sub)
    requires p <= h'.second || !Reads(h'.phase)
    ensures Frontier(h', p, targeted)
  {
    hide Pending, Below;
  }

  lemma ReceiveKeepsFrontier(h: Handler, p: nat, targeted: bool)
    requires Enabled(h, Receive) && Frontier(h, p, targeted)
    ensures Frontier(h.(sub := h.sub.(received := Some(h.sub.queue[0]), queue := h.sub.queue[1..])), p, targeted)
  {
    ReceivedPending(h.sub);
    hide Pending, Below;
  }

  lemma ArmKeepsFrontier(h: Handler, p: nat, targeted: bool)
    requires Enabled(h, Arm) && Frontier(h, p, targeted)
    ensures Frontier(h.(sub := ArmedAt(h.sub, h.phase.high), phase := Armed), p, targeted)
  {
    assert Pending(ArmedAt(h.sub, h.phase.high)) == Pending(h.sub);
    hide Pending, Below;
  }

  /** The steps that leave the queue alone. */
  predicate Quiet(step: LocalStep) {
    step.ReadFirst? || step.ReadSecond? || step.SeeReset? || step.Cancel?
  }

  lemma QuietKeepsFrontier(h: Handler, step: LocalStep, rows: seq<Record>, high: nat, p: nat, targeted: bool)
    requires Enabled(h, step) && Quiet(step) && p <= high && Frontier(h, p, targeted)
    ensures Frontier(AfterLocal(h, step, rows, high), p, targeted)
  {
    var h' := AfterLocal(h, step, rows, high);
    assert h'.sub == h.sub && (p <= h'.second || !Reads(h'.phase));
    hide *;
    FrontierCarries(h, h', p, targeted);
  }

  lemma ReadMinimumKeepsFrontier(h: Handler, minimum: nat, p: nat, targeted: bool)
    requires h.phase.Counted? && Frontier(h, p, targeted)
    ensures Frontier(AfterSecondRead(h, minimum), p, targeted)
  {
    hide Pending, Below;
  }

  lemma LocalKeepsFrontier(h: Handler, step: LocalStep, rows: seq<Record>, log: seq<Record>, p: nat, targeted: bool)
    requires HandlerInv(h, log) && Enabled(h, step) && p <= |log|
    requires Frontier(h, p, targeted)
    ensures Frontier(AfterLocal(h, step, rows, |log|), p, targeted)
  {
    match step
    case Receive => hide Frontier, HandlerInv; ReceiveKeepsFrontier(h, p, targeted);
    case Consume(takes) => hide Frontier, HandlerInv, AfterConsume; ConsumeKeepsFrontier(h, log, p, targeted, takes);
    case Replay(accepted) =>
      assert h.last <= h.second;
      hide Frontier, HandlerInv, AfterReplay;
      ReplayKeepsFrontier(h, rows, p, targeted, accepted);
    case Arm => hide Frontier, HandlerInv, ArmedAt; ArmKeepsFrontier(h, p, targeted);
    case ReadMinimum =>
      hide HandlerInv, InfoOf;
      ReadMinimumKeepsFrontier(h, InfoOf(rows, h.second).minimum, p, targeted);
      hide Frontier, AfterSecondRead;
    case _ => hide Frontier, HandlerInv, AfterLocal; QuietKeepsFrontier(h, step, rows, |log|, p, targeted);
  }

  lemma LocalKeepsClosed(h: Handler, step: LocalStep, rows: seq<Record>, high: nat)
    requires Enabled(h, step)
    ensures AfterLocal(h, step, rows, high).sub.closed == h.sub.closed
  {
    hide Between, IsWholeRange;
  }

  lemma GrowthKeepsQueue(s: Sub, log: seq<Record>, more: seq<Record>)
    requires QueueInv(s, log)
    ensures QueueInv(s, log + more)
  {
    hide Bytes, Pending;
  }

  lemma GrowthKeeps(h: Handler, log: seq<Record>, more: seq<Record>)
    requires HandlerInv(h, log)
    ensures HandlerInv(h, log + more)
  {
    GrowthKeepsQueue(h.sub, log, more);
    hide QueueInv;
    if Exact(h, log) {
      assert (log + more)[h.after.value..h.last] == log[h.after.value..h.last];
    }
  }

  lemma ClosedKeeps(h: Handler, log: seq<Record>, reset: Option<ResetReason>, attached: bool)
    requires HandlerInv(h, log) && (h.phase.Done? || attached == h.attached)
    ensures HandlerInv(h.(attached := attached, sub := h.sub.(closed := true, reset := reset)), log)
  {
    assert Pending(h.sub.(closed := true, reset := reset)) == Pending(h.sub);
    hide Pending;
  }

  lemma NewHandlerKeeps(after: Option<nat>, log: seq<Record>, p: nat)
    ensures HandlerInv(Handler(after, 0, [], Subscribed, 0, true, NEW_SUB), log)
    ensures Frontier(Handler(after, 0, [], Subscribed, 0, true, NEW_SUB), p, false)
  {
  }

  // ----- the steps of the system -----

  lemma PumpStartKeeps(rows: seq<Record>, log: seq<Record>, p: nat)
    requires JournalInv(rows, log) && p < |log|
    ensures Upcoming(Between(rows, p, |log|), log) && Between(rows, p, |log|) != []
  {
    var todo := Between(rows, p, |log|);
    BetweenIncreasing(rows, p, |log|);
    forall r | r in todo ensures 1 <= r.sequence <= |log| && r == log[r.sequence - 1] {
      BetweenMembers(rows, p, |log|, r);
    }
    BetweenMembers(rows, p, |log|, log[|log| - 1]);
    LastOfIncreasing(todo, log[|log| - 1]);
  }

  lemma TailIsUpcoming(todo: seq<Record>, log: seq<Record>)
    requires todo != [] && Upcoming(todo, log)
    ensures Upcoming(todo[1..], log)
    ensures 1 <= todo[0].sequence <= |log| && todo[0] == log[todo[0].sequence - 1]
  {
    assert forall i :: 0 <= i < |todo[1..]| ==> todo[1..][i] == todo[i + 1];
    assert todo[0] in todo;
  }

  lemma HandlersKeep(w: World, w': World, a: Action)
    requires WorldInv(w) && Next(w, w', a)
    ensures HandlersInv(w'.handlers, w'.log)
  {
    hide HandlerInv, JournalInv;
    match a
    case Append(payload, now) =>
      forall id | id in w'.handlers ensures HandlerInv(w'.handlers[id], w'.log) {
        GrowthKeeps(w.handlers[id], w.log, [Record(|w.log| + 1, payload, now)]);
      }
    case PumpFan(id) =>
      assert HubInv(w.handlers[id], w.published, Targeted(w.pump, id));
      OfferKeeps(w.handlers[id], w.pump.current, w.log);
    case Subscribe(id, after) => NewHandlerKeeps(after, w.log, 0);
    case Local(id, step) => LocalKeeps(w.handlers[id], step, w.rows, w.log);
    case Detach(id) => ClosedKeeps(w.handlers[id], w.log, w.handlers[id].sub.reset, false);
    case CloseHub =>
      forall id | id in w'.handlers ensures HandlerInv(w'.handlers[id], w'.log) {
        ClosedKeeps(w.handlers[id], w.log, Some(HubShutdown), w.handlers[id].attached);
      }
    case _ =>
  }

  lemma PumpKeeps(w: World, w': World, a: Action)
    requires WorldInv(w) && Next(w, w', a)
    ensures JournalInv(w'.rows, w'.log)
    ensures w'.published.Some? ==> w'.published.value <= |w'.log|
    ensures PumpInv(w'.pump, w'.log, w'.published, w'.handlers)
  {
    hide HandlersInv, HubsInv, JournalInv, Upcoming;
    match a
    case Append(payload, now) => AppendKeepsJournal(w.rows, w.log, payload, now);
    case PumpStart => PumpStartKeeps(w.rows, w.log, w.published.value);
    case PumpPublish => TailIsUpcoming(w.pump.todo, w.log);
    case PumpFan(id) => OfferedKeepsLife(w.handlers[id].sub, w.pump.current); hide Offered;
    case PumpDone =>
    case Subscribe(id, after) =>
    case Local(id, step) => LocalKeepsClosed(w.handlers[id], step, w.rows, |w.log|); hide AfterLocal;
    case Detach(id) =>
      OpenIsAttached(w.handlers, w.log);
      OthersKeepHub(w.handlers, id);
    case CloseHub => OpenIsAttached(w.handlers, w.log);
    case _ =>
  }

  /** When the last subscription leaves, no open one is left behind. */
  lemma OthersKeepHub(handlers: map<nat, Handler>, id: nat)
    requires id in handlers
    ensures forall k :: k in handlers && k != id && handlers[k].attached ==>
      k in Attached(handlers[id := handlers[id].(attached := false, sub := handlers[id].sub.(closed := true))])
  {
  }

  lemma PublishKeepsHub(h: Handler, p: nat, e: Record)
    requires Frontier(h, p, false) && e.sequence > p
    ensures Frontier(h, e.sequence, true)
  {
  }

  lemma OpenIsAttached(handlers: map<nat, Handler>, log: seq<Record>)
    requires HandlersInv(handlers, log)
    ensures forall id :: id in handlers && !handlers[id].sub.closed ==> handlers[id].attached
  {
    forall id | id in handlers && !handlers[id].sub.closed ensures handlers[id].attached {
      assert HandlerInv(handlers[id], log);
    }
  }

  lemma LocalKeepsHub(h: Handler, step: LocalStep, rows: seq<Record>, log: seq<Record>, p: Option<nat>, targeted: bool)
    requires HandlerInv(h, log) && Enabled(h, step) && (p.Some? ==> p.value <= |log|)
    requires HubInv(h, p, targeted)
    ensures HubInv(AfterLocal(h, step, rows, |log|), p, targeted)
  {
    LocalKeepsClosed(h, step, rows, |log|);
    if !h.sub.closed {
      LocalKeepsFrontier(h, step, rows, log, p.value, targeted);
    }
    hide AfterLocal, HandlerInv, Frontier;
  }

  lemma FanKeepsHub(h: Handler, e: Record, log: seq<Record>, p: Option<nat>)
    requires HandlerInv(h, log) && HubInv(h, p, true)
    requires !h.sub.closed ==> p == Some(e.sequence)
    ensures HubInv(h.(sub := Offered(h.sub, e)), p, false)
  {
    OfferedKeepsLife(h.sub, e);
    if !h.sub.closed {
      OfferCovers(h, e, log);
    }
    hide HandlerInv, Offered, Covered;
  }

  lemma UpdateKeepsHubs(handlers: map<nat, Handler>, id: nat, h: Handler, p: Option<nat>, pump: Pump, pump': Pump)
    requires HubsInv(handlers, p, pump) && id in handlers && HubInv(h, p, Targeted(pump', id))
    requires forall k :: k != id ==> Targeted(pump, k) == Targeted(pump', k)
    ensures HubsInv(handlers[id := h], p, pump')
  {
    hide HubInv;
  }

  lemma PublishKeepsHubs(handlers: map<nat, Handler>, p: nat, pump: Pump)
    requires HubsInv(handlers, Some(p), PumpIdle) && pump.Fanning? && pump.current.sequence > p
    requires forall id :: id in handlers && !handlers[id].sub.closed ==> id in pump.targets
    ensures HubsInv(handlers, Some(pump.current.sequence), pump)
  {
    hide Frontier;
    forall id | id in handlers ensures HubInv(handlers[id], Some(pump.current.sequence), Targeted(pump, id)) {
      assert HubInv(handlers[id], Some(p), false);
      if !handlers[id].sub.closed {
        PublishKeepsHub(handlers[id], p, pump.current);
      }
    }
  }

  lemma SubscribeKeepsHubs(handlers: map<nat, Handler>, id: nat, h: Handler, published: Option<nat>, pump: Pump)
    requires HubsInv(handlers, published, pump) && id !in handlers && !Targeted(pump, id)
    requires Frontier(h, if published.None? then 0 else published.value, false)
    ensures HubsInv(handlers[id := h], if published.None? then Some(0) else published, pump)
  {
    hide Frontier;
    var p := if published.None? then Some(0) else published;
    forall k | k in handlers[id := h] ensures HubInv(handlers[id := h][k], p, Targeted(pump, k)) {
      if k != id {
        assert HubInv(handlers[k], published, Targeted(pump, k));
      }
    }
  }

  lemma DetachKeepsHubs(handlers: map<nat, Handler>, id: nat, published: Option<nat>, pump: Pump)
    requires HubsInv(handlers, published, pump) && id in handlers
    requires forall k :: k in handlers && !handlers[k].sub.closed ==> handlers[k].attached
    ensures var handlers' := handlers[id := handlers[id].(attached := false, sub := handlers[id].sub.(closed := true))];
      HubsInv(handlers', if Attached(handlers') == {} then None else published, pump)
  {
    hide Frontier;
    var handlers' := handlers[id := handlers[id].(attached := false, sub := handlers[id].sub.(closed := true))];
    var p := if Attached(handlers') == {} then None else published;
    OthersKeepHub(handlers, id);
    forall k | k in handlers' ensures HubInv(handlers'[k], p, Targeted(pump, k)) {
      if k != id {
        assert HubInv(handlers[k], published, Targeted(pump, k));
      }
    }
  }

  lemma StepKeepsHubs(w: World, w': World, id: nat, step: LocalStep)
    requires WorldInv(w) && Next(w, w', Local(id, step))
    ensures HubsInv(w'.handlers, w'.published, w'.pump)
  {
    hide HandlerInv, JournalInv, Frontier, PumpInv, HubInv, Enabled, AfterLocal;
    assert HubInv(w.handlers[id], w.published, Targeted(w.pump, id));
    LocalKeepsHub(w.handlers[id], step, w.rows, w.log, w.published, Targeted(w.pump, id));
    UpdateKeepsHubs(w.handlers, id, w'.handlers[id], w.published, w.pump, w'.pump);
  }

  lemma FanKeepsHubs(w: World, w': World, id: nat)
    requires WorldInv(w) && Next(w, w', PumpFan(id))
    ensures HubsInv(w'.handlers, w'.published, w'.pump)
  {
    hide HandlerInv, JournalInv, Frontier, Upcoming, HubInv, Offered;
    assert HubInv(w.handlers[id], w.published, true);
    FanKeepsHub(w.handlers[id], w.pump.current, w.log, w.published);
    UpdateKeepsHubs(w.handlers, id, w'.handlers[id], w.published, w.pump, w'.pump);
  }

  lemma CloseKeepsHubs(handlers: map<nat, Handler>, pump: Pump)
    requires forall id :: id in handlers && !handlers[id].sub.closed ==> handlers[id].attached
    ensures HubsInv(ShutDown(handlers), None, pump)
  {
  }

  lemma PumpPublishKeepsHubs(w: World, w': World)
    requires WorldInv(w) && Next(w, w', PumpPublish)
    ensures HubsInv(w'.handlers, w'.published, w'.pump)
  {
    OpenIsAttached(w.handlers, w.log);
    hide HandlersInv, JournalInv, HubInv, Upcoming;
    if w'.pump.Fanning? {
      PublishKeepsHubs(w.handlers, w.published.value, w'.pump);
    }
  }

  lemma JoinKeepsHubs(w: World, w': World, id: nat, after: Option<nat>)
    requires WorldInv(w) && Next(w, w', Subscribe(id, after))
    ensures HubsInv(w'.handlers, w'.published, w'.pump)
  {
    hide HandlersInv, JournalInv, HubInv, Upcoming, Frontier;
    var p := if w.published.None? then 0 else w.published.value;
    NewHandlerKeeps(after, w.log, p);
    SubscribeKeepsHubs(w.handlers, id, w'.handlers[id], w.published, w.pump);
  }

  lemma LeaveKeepsHubs(w: World, w': World, id: nat)
    requires WorldInv(w) && Next(w, w', Detach(id))
    ensures HubsInv(w'.handlers, w'.published, w'.pump)
  {
    OpenIsAttached(w.handlers, w.log);
    hide HandlersInv, JournalInv, HubInv, Upcoming, PumpInv;
    DetachKeepsHubs(w.handlers, id, w.published, w.pump);
  }

  lemma ShutdownKeepsHubs(w: World, w': World)
    requires WorldInv(w) && Next(w, w', CloseHub)
    ensures HubsInv(w'.handlers, w'.published, w'.pump)
  {
    OpenIsAttached(w.handlers, w.log);
    hide HandlersInv, JournalInv, HubInv, Upcoming, PumpInv;
    CloseKeepsHubs(w.handlers, w.pump);
  }

  lemma HubsKeep(w: World, w': World, a: Action)
    requires WorldInv(w) && Next(w, w', a)
    ensures HubsInv(w'.handlers, w'.published, w'.pump)
  {
    match a
    case PumpPublish => hide *; PumpPublishKeepsHubs(w, w');
    case PumpFan(id) => hide *; FanKeepsHubs(w, w', id);
    case Subscribe(id, after) => hide *; JoinKeepsHubs(w, w', id, after);
    case Local(id, step) => hide *; StepKeepsHubs(w, w', id, step);
    case Detach(id) => hide *; LeaveKeepsHubs(w, w', id);
    case CloseHub => hide *; ShutdownKeepsHubs(w, w');
    case _ => hide HandlersInv, JournalInv, HubInv, Upcoming;
  }

  lemma {:induction false} BehaviorKeepsInv(tr: seq<World>, actions: seq<Action>, i: nat)
    requires Behavior(tr, actions) && i < |tr|
    ensures WorldInv(tr[i])
  {
    if i > 0 {
      BehaviorKeepsInv(tr, actions, i - 1);
      assert Next(tr[i - 1], tr[i], actions[i - 1]);
      HandlersKeep(tr[i - 1], tr[i], actions[i - 1]);
      PumpKeeps(tr[i - 1], tr[i], actions[i - 1]);
      HubsKeep(tr[i - 1], tr[i], actions[i - 1]);
    }
  }

  // ----- what a subscriber can rely on -----

  /** For any number of subscribers and every interleaving, the emitted frames
    * are exactly the records after the cursor, in order, up to the last one. */
  lemma StreamIsExact(tr: seq<World>, actions: seq<Action>, i: nat, id: nat)
    requires Behavior(tr, actions) && i < |tr| && id in tr[i].handlers
    ensures var h := tr[i].handlers[id];
      h.emitted == [] || (h.after.Some? && h.after.value <= h.last <= |tr[i].log|
                          && h.emitted == tr[i].log[h.after.value..h.last])
  {
    BehaviorKeepsInv(tr, actions, i);
  }

  /** Once the hub has published the high watermark and the pump is between
    * records, a subscriber whose channel is drained, and whose subscription was
    * neither reset nor closed, has emitted everything after its cursor. */
  lemma DrainedMeansCaughtUp(tr: seq<World>, actions: seq<Action>, i: nat, id: nat)
    requires Behavior(tr, actions) && i < |tr| && id in tr[i].handlers
    requires tr[i].published == Some(|tr[i].log|) && !tr[i].pump.Fanning?
    requires var h := tr[i].handlers[id];
      h.phase.Streaming? && h.sub.reset.None? && !h.sub.closed && Pending(h.sub) == []
    ensures var h, log := tr[i].handlers[id], tr[i].log;
      h.last == |log| && h.after.Some? && h.after.value <= |log| && h.emitted == log[h.after.value..]
  {
    BehaviorKeepsInv(tr, actions, i);
    var h, log := tr[i].handlers[id], tr[i].log;
    assert HandlerInv(h, log) && HubInv(h, tr[i].published, Targeted(tr[i].pump, id));
    assert !Targeted(tr[i].pump, id);
    hide *;
    DrainedHandler(h, log);
  }

  lemma DrainedHandler(h: Handler, log: seq<Record>)
    requires HandlerInv(h, log) && HubInv(h, Some(|log|), false)
    requires h.phase.Streaming? && h.sub.reset.None? && !h.sub.closed && Pending(h.sub) == []
    ensures h.last == |log| && h.after.Some? && h.after.value <= |log| && h.emitted == log[h.after.value..]
  {
    hide QueueInv;
    assert log[h.after.value..|log|] == log[h.after.value..];
  }

  /** A synchronization ends by publishing the newest record: whenever the pump
    * publishes its last one, the hub's published sequence becomes the journal's
    * high watermark (unless the project lost its last subscriber). */
  lemma LastPublishReachesHighWatermark(tr: seq<World>, actions: seq<Action>, i: nat)
    requires Behavior(tr, actions) && i < |actions| && actions[i].PumpPublish?
    requires tr[i].published.Some? && tr[i].pump.Sending? && |tr[i].pump.todo| == 1
    ensures tr[i + 1].published == Some(|tr[i + 1].log|)
  {
    BehaviorKeepsInv(tr, actions, i);
    assert Next(tr[i], tr[i + 1], actions[i]);
  }

  /** The byte counter is exact at every moment, so the clamp below zero never
    * acts and both queue bounds hold. */
  lemma BytesNeverClamp(tr: seq<World>, actions: seq<Action>, i: nat, id: nat)
    requires Behavior(tr, actions) && i < |tr| && id in tr[i].handlers
    ensures var s := tr[i].handlers[id].sub;
      && s.queueBytes == Bytes(Pending(s)) <= MAXIMUM_QUEUE_BYTES && |s.queue| <= MAXIMUM_QUEUE_COUNT
      && (s.received.Some? ==> s.queueBytes >= |s.received.value.payload|)
  {
    BehaviorKeepsInv(tr, actions, i);
    var s := tr[i].handlers[id].sub;
    if s.received.Some? {
      BytesPopped(s.received.value, s.queue);
    }
  }
}
