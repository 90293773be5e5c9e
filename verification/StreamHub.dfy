/** The process-local fan-out of one conversation: the hub keeps a published
  * sequence and out-of-order events, every subscriber keeps its own bounded
  * queue keyed by sequence.  `size` is the encoded length of an event.
  */
module ConversationStream {
  import opened Wrappers
  import opened EventJournal

  datatype Reason = SlowConsumer | SequenceGap | CursorGone | AgentShutdown

  /** One subscriber's queue. */
  datatype Sub = Sub(
    closed: bool, reset: Option<Reason>, live: bool, suppressThrough: nat, queueBytes: nat, pending: map<nat, Event>)

  /** What the hub knows about one conversation. */
  datatype Conv = Conv(published: nat, initialized: bool, pending: map<nat, Event>)

  datatype NextResult =
    | Closed
    | Reset(reason: Reason)
    | Delivered(event: Event)
    | Gap(minimum: nat)
    | Blocked

  const MAXIMUM_QUEUE_COUNT: nat := 256
  const MAXIMUM_QUEUE_BYTES: nat := 524288
  const MAXIMUM_SUBSCRIPTIONS: nat := 8
  const MAXIMUM_SUBSCRIPTIONS_PER_CONVERSATION: nat := 4

  const NEW_SUB: Sub := Sub(false, None, false, 0, 0, map[])
  const NEW_CONV: Conv := Conv(0, false, map[])

  // ----- specification functions -----

  function Enqueue(s: Sub, e: Event, size: Event -> nat): Sub {
    if s.closed || s.reset.Some? || !s.live || e.sequence <= s.suppressThrough then s
    else if e.sequence in s.pending then s
    else if |s.pending| >= MAXIMUM_QUEUE_COUNT || s.queueBytes + size(e) > MAXIMUM_QUEUE_BYTES then
      s.(reset := Some(SlowConsumer))
    else s.(pending := s.pending[e.sequence := e], queueBytes := s.queueBytes + size(e))
  }

  function EnqueueAll(s: Sub, events: seq<Event>, size: Event -> nat): Sub {
    if events == [] then s
    else Enqueue(EnqueueAll(s, events[..|events| - 1], size), events[|events| - 1], size)
  }

  function Newer(pending: map<nat, Event>, sequence: nat): map<nat, Event> {
    map k | k in pending && k > sequence :: pending[k]
  }

  function Older(pending: map<nat, Event>, sequence: nat): map<nat, Event> {
    map k | k in pending && k <= sequence :: pending[k]
  }

  function Among(pending: map<nat, Event>, keys: set<nat>): map<nat, Event> {
    map k | k in pending && k in keys :: pending[k]
  }

  /** The bytes of a queue, counted in any order. */
  ghost function Bytes(pending: map<nat, Event>, size: Event -> nat): nat
    decreases |pending|
  {
    if pending == map[] then 0
    else
      var k :| k in pending;
      size(pending[k]) + Bytes(pending - {k}, size)
  }

  function Subtract(total: nat, bytes: nat): nat {
    if total < bytes then 0 else total - bytes
  }

  ghost function GoLive(s: Sub, sequence: nat, size: Event -> nat): Sub {
    if s.closed then s
    else s.(live := true, suppressThrough := sequence, pending := Newer(s.pending, sequence),
            queueBytes := Subtract(s.queueBytes, Bytes(Older(s.pending, sequence), size)))
  }

  function MarkedReset(s: Sub, reason: Reason): Sub {
    if s.closed || s.reset.Some? then s else s.(reset := Some(reason))
  }

  function Minimum(keys: set<nat>): (m: nat)
    ensures keys == {} ==> m == 0
    ensures keys != {} ==> m in keys && forall k :: k in keys ==> m <= k
  {
    if keys == {} then 0
    else
      MinimumExists(keys);
      var m :| m in keys && forall k :: k in keys ==> m <= k;
      m
  }

  lemma {:induction false} MinimumExists(keys: set<nat>)
    requires keys != {}
    ensures exists m :: m in keys && forall k :: k in keys ==> m <= k
  {
    var x :| x in keys;
    if keys != {x} {
      MinimumExists(keys - {x});
      var m :| m in keys - {x} && forall k :: k in keys - {x} ==> m <= k;
      var least := if x < m then x else m;
      assert forall k :: k in keys ==> k == x || k in keys - {x};
      assert least in keys && forall k :: k in keys ==> least <= k;
    }
  }

  /** One attempt to take the expected event. */
  function NextFor(s: Sub, expected: nat): NextResult {
    if s.closed then Closed
    else if s.reset.Some? then Reset(s.reset.value)
    else if expected in s.pending then Delivered(s.pending[expected])
    else
      var minimum := Minimum(s.pending.Keys);
      if minimum > expected then Gap(minimum) else Blocked
  }

  function AfterNext(s: Sub, expected: nat, size: Event -> nat): Sub {
    if NextFor(s, expected).Delivered?
    then s.(pending := s.pending - {expected}, queueBytes := Subtract(s.queueBytes, size(s.pending[expected])))
    else s
  }

  /** Moves on while the next sequence is already held; yields what it passes. */
  function Drained(c: Conv): (Conv, seq<Event>)
    decreases |c.pending|
  {
    if c.initialized && c.published + 1 in c.pending then
      var e := c.pending[c.published + 1];
      var (c', events) := Drained(c.(published := c.published + 1, pending := c.pending - {c.published + 1}));
      (c', [e] + events)
    else (c, [])
  }

  lemma DrainedStep(c: Conv)
    requires c.initialized && c.published + 1 in c.pending
    ensures var rest := Drained(c.(published := c.published + 1, pending := c.pending - {c.published + 1}));
      Drained(c) == (rest.0, [c.pending[c.published + 1]] + rest.1)
  {
  }

  lemma DrainedStops(c: Conv)
    requires c.initialized ==> c.published + 1 !in c.pending
    ensures Drained(c) == (c, [])
  {
  }

  function Published(c: Conv, e: Event): (Conv, seq<Event>) {
    if !c.initialized then (c.(pending := c.pending[e.sequence := e]), [e])
    else if e.sequence <= c.published then (c, [])
    else if e.sequence > c.published + 1 then (c.(pending := c.pending[e.sequence := e]), [e])
    else
      var (c', events) := Drained(c.(published := e.sequence));
      (c', [e] + events)
  }

  function WentLive(c: Conv, sequence: nat): (Conv, seq<Event>) {
    if !c.initialized || sequence > c.published
    then Drained(c.(initialized := true, published := sequence, pending := Newer(c.pending, sequence)))
    else (c, [])
  }

  // ----- what the functions guarantee -----

  /** Byte accounting: the counter is the bytes of the queue, so the clamp at
    * zero never acts, and a queue that is not reset is within both bounds. */
  ghost predicate Accounted(s: Sub, size: Event -> nat) {
    && s.queueBytes == Bytes(s.pending, size)
    && |s.pending| <= MAXIMUM_QUEUE_COUNT && s.queueBytes <= MAXIMUM_QUEUE_BYTES
  }

  lemma {:induction false} BytesWithout(pending: map<nat, Event>, k: nat, size: Event -> nat)
    requires k in pending
    ensures Bytes(pending, size) == size(pending[k]) + Bytes(pending - {k}, size)
    decreases |pending|
  {
    var j :| j in pending && Bytes(pending, size) == size(pending[j]) + Bytes(pending - {j}, size);
    if j != k {
      BytesWithout(pending - {j}, k, size);
      BytesWithout(pending - {k}, j, size);
      assert pending - {j} - {k} == pending - {k} - {j};
    }
  }

  lemma BytesWith(pending: map<nat, Event>, e: Event, size: Event -> nat)
    requires e.sequence !in pending
    ensures Bytes(pending[e.sequence := e], size) == Bytes(pending, size) + size(e)
  {
    var grown := pending[e.sequence := e];
    BytesWithout(grown, e.sequence, size);
    assert grown - {e.sequence} == pending;
  }

  lemma {:induction false} BytesSplit(pending: map<nat, Event>, sequence: nat, size: Event -> nat)
    ensures Bytes(pending, size) == Bytes(Older(pending, sequence), size) + Bytes(Newer(pending, sequence), size)
    decreases |pending|
  {
    if pending == map[] {
      assert Older(pending, sequence) == map[] && Newer(pending, sequence) == map[];
    } else {
      var k :| k in pending;
      BytesWithout(pending, k, size);
      BytesSplit(pending - {k}, sequence, size);
      hide Bytes;
      WithoutOne(pending, k, sequence);
      hide Older, Newer;
      if k <= sequence {
        BytesWithout(Older(pending, sequence), k, size);
      } else {
        BytesWithout(Newer(pending, sequence), k, size);
      }
    }
  }

  lemma WithoutOne(pending: map<nat, Event>, k: nat, sequence: nat)
    requires k in pending
    ensures k <= sequence ==>
      && k in Older(pending, sequence) && Older(pending, sequence)[k] == pending[k]
      && Older(pending, sequence) - {k} == Older(pending - {k}, sequence)
      && Newer(pending, sequence) == Newer(pending - {k}, sequence)
    ensures k > sequence ==>
      && k in Newer(pending, sequence) && Newer(pending, sequence)[k] == pending[k]
      && Newer(pending, sequence) - {k} == Newer(pending - {k}, sequence)
      && Older(pending, sequence) == Older(pending - {k}, sequence)
  {
    if k <= sequence {
      assert Older(pending, sequence) - {k} == Older(pending - {k}, sequence);
      assert Newer(pending, sequence) == Newer(pending - {k}, sequence);
    } else {
      assert Newer(pending, sequence) - {k} == Newer(pending - {k}, sequence);
      assert Older(pending, sequence) == Older(pending - {k}, sequence);
    }
  }

  lemma OlderStep(start: map<nat, Event>, unseen: set<nat>, k: nat, sequence: nat, size: Event -> nat)
    requires k in unseen && unseen <= start.Keys
    ensures Bytes(Older(Among(start, unseen), sequence), size)
      == (if k <= sequence then size(start[k]) else 0)
         + Bytes(Older(Among(start, unseen - {k}), sequence), size)
  {
    var older, older' := Older(Among(start, unseen), sequence), Older(Among(start, unseen - {k}), sequence);
    if k <= sequence {
      BytesWithout(older, k, size);
      assert older - {k} == older';
    } else {
      assert older == older';
    }
  }

  lemma AccountingIsExact(s: Sub, e: Event, sequence: nat, expected: nat, size: Event -> nat)
    requires Accounted(s, size)
    ensures Accounted(Enqueue(s, e, size), size)
    ensures Accounted(GoLive(s, sequence, size), size)
    ensures Accounted(AfterNext(s, expected, size), size)
    ensures NextFor(s, expected).Delivered? ==> size(s.pending[expected]) <= s.queueBytes
  {
    if e.sequence !in s.pending {
      BytesWith(s.pending, e, size);
    }
    BytesSplit(s.pending, sequence, size);
    var kept := Newer(s.pending, sequence);
    assert kept.Keys <= s.pending.Keys;
    KeysBound(kept.Keys, s.pending.Keys);
    if expected in s.pending {
      BytesWithout(s.pending, expected, size);
    }
  }

  lemma {:induction false} KeysBound(a: set<nat>, b: set<nat>)
    requires a <= b
    ensures |a| <= |b|
  {
    if a != {} {
      var x :| x in a;
      KeysBound(a - {x}, b - {x});
    }
  }

  ghost predicate Keyed(pending: map<nat, Event>) {
    forall k :: k in pending ==> pending[k].sequence == k
  }

  /** A drain yields the consecutive run of held events that starts right after
    * the published sequence, and stops only where one is missing. */
  lemma {:induction false} DrainIsConsecutive(c: Conv)
    requires Keyed(c.pending)
    ensures var (c', events) := Drained(c);
      && c'.initialized == c.initialized
      && c'.published == c.published + |events|
      && (c.initialized ==> c'.published + 1 !in c'.pending)
      && (forall i :: 0 <= i < |events| ==>
            && events[i].sequence == c.published + 1 + i
            && events[i].sequence in c.pending && c.pending[events[i].sequence] == events[i])
      && Keyed(c'.pending)
      && (forall k :: k in c'.pending <==> k in c.pending && !(c.published < k <= c'.published))
      && (forall k :: k in c'.pending ==> c'.pending[k] == c.pending[k])
    decreases |c.pending|
  {
    if c.initialized && c.published + 1 in c.pending {
      var rest := c.(published := c.published + 1, pending := c.pending - {c.published + 1});
      DrainIsConsecutive(rest);
      var events := Drained(c).1;
      forall i | 0 <= i < |events|
        ensures events[i].sequence == c.published + 1 + i
        ensures events[i].sequence in c.pending && c.pending[events[i].sequence] == events[i]
      {
        if i > 0 {
          assert events[i] == Drained(rest).1[i - 1];
        }
      }
    }
  }

  lemma {:induction false} EnqueueAllAppends(s: Sub, a: seq<Event>, b: seq<Event>, size: Event -> nat)
    ensures EnqueueAll(s, a + b, size) == EnqueueAll(EnqueueAll(s, a, size), b, size)
  {
    if b == [] {
      assert a + b == a;
    } else {
      var n := |b| - 1;
      assert (a + b)[..|a + b| - 1] == a + b[..n];
      EnqueueAllAppends(s, a, b[..n], size);
    }
  }

  // ----- the objects -----

  class Subscriber {
    const size: Event -> nat
    var closed: bool
    var reset: bool
    var resetReason: Reason
    var live: bool
    var suppressThrough: nat
    var queueBytes: nat
    var pending: map<nat, Event>

    constructor (size: Event -> nat)
      ensures View() == NEW_SUB && this.size == size
    {
      this.size := size;
      closed, reset, resetReason, live, suppressThrough := false, false, AgentShutdown, false, 0;
      queueBytes, pending := 0, map[];
    }

    function View(): Sub
      reads this
    {
      Sub(closed, if reset then Some(resetReason) else None, live, suppressThrough, queueBytes, pending)
    }

    method EnqueueEvent(event: Event)
      modifies this
      ensures View() == Enqueue(old(View()), event, size)
    {
      var bytes := size(event);
      if closed || reset || !live || event.sequence <= suppressThrough {
        return;
      }
      if event.sequence in pending {
        return;
      }
      if |pending| >= MAXIMUM_QUEUE_COUNT || queueBytes + bytes > MAXIMUM_QUEUE_BYTES {
        reset := true;
        resetReason := SlowConsumer;
        return;
      }
      pending := pending[event.sequence := event];
      queueBytes := queueBytes + bytes;
    }

    method BeginLiveAt(sequence: nat)
      modifies this
      ensures View() == GoLive(old(View()), sequence, size)
    {
      if !closed {
        live := true;
        suppressThrough := sequence;
        ghost var start := pending;
        assert Among(start, start.Keys) == start;
        var total: int := queueBytes;
        var unseen := pending.Keys;
        while unseen != {}
          invariant unseen <= start.Keys && pending.Keys <= start.Keys
          invariant forall k :: k in start ==> (k in pending <==> k in unseen || k > sequence)
          invariant forall k :: k in pending ==> pending[k] == start[k]
          invariant total == queueBytes - Bytes(Older(start, sequence), size)
            + Bytes(Older(Among(start, unseen), sequence), size)
          modifies this`pending
          decreases unseen
        {
          var pendingSequence :| pendingSequence in unseen;
          OlderStep(start, unseen, pendingSequence, sequence, size);
          if pendingSequence <= sequence {
            total := total - size(pending[pendingSequence]);
            pending := pending - {pendingSequence};
          }
          unseen := unseen - {pendingSequence};
        }
        assert Older(Among(start, unseen), sequence) == map[];
        assert pending == Newer(start, sequence);
        queueBytes := if total < 0 then 0 else total;
      }
    }

    /** One turn of the waiting loop: it never blocks. */
    method TryNext(expected: nat) returns (r: NextResult)
      requires 0 !in pending
      modifies this
      ensures r == NextFor(old(View()), expected)
      ensures View() == AfterNext(old(View()), expected, size)
    {
      if closed {
        return Closed;
      }
      if reset {
        return Reset(resetReason);
      }
      if expected in pending {
        var event := pending[expected];
        pending := pending - {expected};
        queueBytes := if queueBytes < size(event) then 0 else queueBytes - size(event);
        return Delivered(event);
      }
      var minimum := 0;
      var unseen := pending.Keys;
      while unseen != {}
        invariant unseen <= pending.Keys
        invariant minimum == 0 ==> unseen == pending.Keys
        invariant minimum != 0 ==> minimum in pending.Keys
        invariant minimum != 0 ==> forall k :: k in pending && k !in unseen ==> minimum <= k
        decreases unseen
      {
        var sequence :| sequence in unseen;
        if minimum == 0 || sequence < minimum {
          minimum := sequence;
        }
        unseen := unseen - {sequence};
      }
      if minimum > expected {
        return Gap(minimum);
      }
      r := Blocked;
    }

    method MarkReset(reason: Reason)
      modifies this
      ensures View() == MarkedReset(old(View()), reason)
    {
      if !closed && !reset {
        reset := true;
        resetReason := reason;
      }
    }

    method Close()
      modifies this
      ensures View() == old(View()).(closed := true)
    {
      closed := true;
    }
  }

  /** The hub entry of one conversation and its subscribers. */
  class Hub {
    const size: Event -> nat
    var closed: bool
    var present: bool
    var published: nat
    var initialized: bool
    var pending: map<nat, Event>
    var subscribers: set<Subscriber>

    ghost predicate Valid()
      reads this, subscribers
    {
      && (forall s :: s in subscribers ==> s.size == size)
      && (!present ==> Conversation() == NEW_CONV && subscribers == {})
    }

    function Conversation(): Conv
      reads this
    {
      Conv(published, initialized, pending)
    }

    constructor (size: Event -> nat)
      ensures Valid() && !closed && !present && this.size == size
    {
      this.size := size;
      closed, present, published, initialized, pending, subscribers := false, false, 0, false, map[], {};
    }

    /** `elsewhere` counts the subscriptions of other conversations.  A refused
      * subscription still leaves the conversation entry behind. */
    method Subscribe(elsewhere: nat) returns (r: Option<Subscriber>)
      requires Valid()
      modifies this
      ensures Valid() && Conversation() == old(Conversation()) && closed == old(closed)
      ensures present == (old(present) || !closed)
      ensures r.Some? == (!closed && elsewhere + |old(subscribers)| < MAXIMUM_SUBSCRIPTIONS
                          && |old(subscribers)| < MAXIMUM_SUBSCRIPTIONS_PER_CONVERSATION)
      ensures r.Some? ==> fresh(r.value) && r.value.View() == NEW_SUB && subscribers == old(subscribers) + {r.value}
      ensures r.None? ==> subscribers == old(subscribers)
    {
      if closed {
        return None;
      }
      present := true;
      if elsewhere + |subscribers| >= MAXIMUM_SUBSCRIPTIONS
         || |subscribers| >= MAXIMUM_SUBSCRIPTIONS_PER_CONVERSATION {
        return None;
      }
      var subscriber := new Subscriber(size);
      subscribers := subscribers + {subscriber};
      r := Some(subscriber);
    }

    method EnqueueEverywhere(event: Event)
      requires Valid()
      modifies subscribers
      ensures Valid()
      ensures forall s :: s in subscribers ==> s.View() == Enqueue(old(s.View()), event, size)
    {
      var left := subscribers;
      while left != {}
        invariant left <= subscribers
        invariant forall s :: s in subscribers ==>
          s.View() == if s in left then old(s.View()) else Enqueue(old(s.View()), event, size)
        decreases left
      {
        var s :| s in left;
        s.EnqueueEvent(event);
        left := left - {s};
      }
    }

    method DrainPending()
      requires Valid() && Keyed(pending) && present
      modifies this`published, this`pending, subscribers
      ensures Valid() && Conversation() == Drained(old(Conversation())).0
      ensures forall s :: s in subscribers ==>
        s.View() == EnqueueAll(old(s.View()), Drained(old(Conversation())).1, size)
    {
      hide Drained;
      if !initialized {
        DrainedStops(Conversation());
        return;
      }
      ghost var done: seq<Event> := [];
      assert done + Drained(Conversation()).1 == Drained(Conversation()).1;
      while published + 1 in pending
        invariant Valid() && Keyed(pending) && initialized
        invariant Drained(old(Conversation()))
          == (Drained(Conversation()).0, done + Drained(Conversation()).1)
        invariant forall s :: s in subscribers ==> s.View() == EnqueueAll(old(s.View()), done, size)
        decreases |pending|
      {
        var next := pending[published + 1];
        DrainedStep(Conversation());
        ghost var before := Conversation();
        pending := pending - {published + 1};
        published := published + 1;
        ghost var rest := Drained(Conversation()).1;
        assert Drained(before) == (Drained(Conversation()).0, [next] + rest);
        assert done + ([next] + rest) == done + [next] + rest;
        EnqueueEverywhere(next);
        ghost var extended := done + [next];
        assert extended[..|extended| - 1] == done;
        done := extended;
      }
      DrainedStops(Conversation());
      assert done + [] == done;
    }

    /** Called once the attach handler has captured a durable watermark. */
    method BeginLiveAt(subscriber: Subscriber, sequence: nat) returns (replayThrough: nat)
      requires Valid() && Keyed(pending) && subscriber.size == size
      requires present && !closed ==> subscriber in subscribers
      modifies this`published, this`initialized, this`pending, subscriber, subscribers
      ensures Valid()
      ensures closed || !old(present) ==>
        && replayThrough == sequence && subscriber.View() == MarkedReset(old(subscriber.View()), AgentShutdown)
        && Conversation() == old(Conversation())
        && forall s :: s in subscribers && s != subscriber ==> s.View() == old(s.View())
      ensures !closed && old(present) ==>
        var (c', events) := WentLive(old(Conversation()), sequence);
        && Conversation() == c'
        && replayThrough == (if c'.published > sequence then c'.published else sequence)
        && subscriber.View() == EnqueueAll(GoLive(old(subscriber.View()), sequence, size), events, size)
        && forall s :: s in subscribers && s != subscriber ==> s.View() == EnqueueAll(old(s.View()), events, size)
    {
      hide Drained;
      if closed || !present {
        subscriber.MarkReset(AgentShutdown);
        return sequence;
      }
      subscriber.BeginLiveAt(sequence);
      if !initialized || sequence > published {
        initialized := true;
        published := sequence;
        ghost var start := pending;
        var unseen := pending.Keys;
        while unseen != {}
          invariant unseen <= start.Keys && pending.Keys <= start.Keys
          invariant forall k :: k in start ==> (k in pending <==> k in unseen || k > sequence)
          invariant forall k :: k in pending ==> pending[k] == start[k]
          modifies this`pending
          decreases unseen
        {
          var pendingSequence :| pendingSequence in unseen;
          if pendingSequence <= sequence {
            pending := pending - {pendingSequence};
          }
          unseen := unseen - {pendingSequence};
        }
        assert pending == Newer(start, sequence);
        assert Drained(Conversation()) == WentLive(old(Conversation()), sequence);
        DrainPending();
      }
      if published > sequence {
        return published;
      }
      replayThrough := sequence;
    }

    method PublishFor(event: Event)
      requires Valid() && Keyed(pending)
      modifies this`published, this`pending, subscribers
      ensures Valid()
      ensures closed || !present || event.sequence == 0 ==>
        Conversation() == old(Conversation()) && forall s :: s in subscribers ==> s.View() == old(s.View())
      ensures !closed && present && event.sequence > 0 ==>
        var (c', events) := Published(old(Conversation()), event);
        && Conversation() == c'
        && forall s :: s in subscribers ==> s.View() == EnqueueAll(old(s.View()), events, size)
    {
      if event.sequence == 0 || closed || !present {
        return;
      }
      assert [event][..0] == [];
      if !initialized {
        pending := pending[event.sequence := event];
        EnqueueEverywhere(event);
        return;
      }
      if event.sequence <= published {
        return;
      }
      if event.sequence > published + 1 {
        pending := pending[event.sequence := event];
        EnqueueEverywhere(event);
        return;
      }
      published := event.sequence;
      EnqueueEverywhere(event);
      label drained:
      ghost var rest := Drained(Conversation()).1;
      DrainPending();
      forall s | s in subscribers ensures s.View() == EnqueueAll(old(s.View()), [event] + rest, size) {
        EnqueueAllAppends(old(s.View()), [event], rest, size);
      }
    }

    method Unsubscribe(subscriber: Subscriber)
      requires Valid()
      modifies this, subscriber
      ensures Valid() && closed == old(closed) && subscriber.View() == old(subscriber.View()).(closed := true)
      ensures subscribers == old(subscribers) - {subscriber}
      ensures present == (old(present) && subscribers != {})
      ensures present ==> Conversation() == old(Conversation())
    {
      if present {
        subscribers := subscribers - {subscriber};
        if subscribers == {} {
          present, published, initialized, pending := false, 0, false, map[];
        }
      }
      subscriber.Close();
    }

    method ResetAll(reason: Reason)
      requires Valid()
      modifies subscribers
      ensures Valid()
      ensures forall s :: s in subscribers ==> s.View() == MarkedReset(old(s.View()), reason)
    {
      var left := subscribers;
      while left != {}
        invariant left <= subscribers
        invariant forall s :: s in subscribers ==>
          s.View() == if s in left then old(s.View()) else MarkedReset(old(s.View()), reason)
        decreases left
      {
        var s :| s in left;
        s.MarkReset(reason);
        left := left - {s};
      }
    }

    method Close()
      requires Valid()
      modifies this, subscribers
      ensures Valid() && closed && (!old(closed) ==> !present)
      ensures old(closed) ==> Conversation() == old(Conversation())
      ensures forall s :: s in old(subscribers) ==>
        s.View() == if old(closed) then old(s.View()) else MarkedReset(old(s.View()), AgentShutdown)
    {
      if closed {
        return;
      }
      closed := true;
      ResetAll(AgentShutdown);
      present, published, initialized, pending, subscribers := false, 0, false, map[], {};
    }
  }
}
