/** The project hub of agent events and its pump, with the state they update in
  * place.
  */
module AgentEventHub {
  import opened Wrappers
  import opened AgentEventStream
  import opened AgentSubscription

  const MAXIMUM_SUBSCRIPTIONS: nat := 8
  const MAXIMUM_SUBSCRIPTIONS_PER_PROJECT: nat := 4

  function OfferedAll(s: Sub, records: seq<Record>): Sub {
    if records == [] then s else Offered(OfferedAll(s, records[..|records| - 1]), records[|records| - 1])
  }

  lemma OfferedNext(s: Sub, records: seq<Record>, n: nat)
    requires n < |records|
    ensures OfferedAll(s, records[..n + 1]) == Offered(OfferedAll(s, records[..n]), records[n])
  {
    assert records[..n + 1][..n] == records[..n];
  }

  class ProjectHub {
    var closed: bool
    var present: bool
    var published: nat
    var subscribers: set<Subscriber>

    predicate Valid()
      reads this
    {
      !present ==> published == 0 && subscribers == {}
    }

    constructor ()
      ensures Valid() && !closed && !present
    {
      closed, present, published, subscribers := false, false, 0, {};
    }

    /** `elsewhere` counts the subscriptions of other projects. */
    method Subscribe(elsewhere: nat) returns (r: Option<Subscriber>)
      requires Valid()
      modifies this
      ensures Valid() && published == old(published) && closed == old(closed)
      ensures r.Some? <==> !closed && elsewhere + |old(subscribers)| < MAXIMUM_SUBSCRIPTIONS
                           && |old(subscribers)| < MAXIMUM_SUBSCRIPTIONS_PER_PROJECT
      ensures r.Some? ==> present && fresh(r.value) && r.value.View() == NEW_SUB && subscribers == old(subscribers) + {r.value}
      ensures r.None? ==> subscribers == old(subscribers)
    {
      if closed {
        return None;
      }
      present := true;
      if elsewhere + |subscribers| >= MAXIMUM_SUBSCRIPTIONS || |subscribers| >= MAXIMUM_SUBSCRIPTIONS_PER_PROJECT {
        return None;
      }
      var subscriber := new Subscriber();
      subscribers := subscribers + {subscriber};
      r := Some(subscriber);
    }

    /** A record at or below the published sequence changes nothing; a newer one
      * is offered to every subscriber once. */
    method Publish(record: Record)
      requires Valid()
      modifies this`published, subscribers
      ensures Valid()
      ensures var due := present && record.sequence > old(published);
        && published == (if due then record.sequence else old(published))
        && forall s :: s in subscribers ==> s.View() == if due then Offered(old(s.View()), record) else old(s.View())
    {
      if record.sequence == 0 || !present || record.sequence <= published {
        return;
      }
      published := record.sequence;
      var left := subscribers;
      while left != {}
        invariant left <= subscribers && published == record.sequence
        invariant forall s :: s in subscribers ==>
          s.View() == if s in left then old(s.View()) else Offered(old(s.View()), record)
        decreases left
      {
        var s :| s in left;
        s.Enqueue(record);
        left := left - {s};
      }
    }

    method Unsubscribe(subscriber: Subscriber)
      requires Valid()
      modifies this, subscriber
      ensures Valid() && closed == old(closed) && subscriber.View() == old(subscriber.View()).(closed := true)
      ensures subscribers == old(subscribers) - {subscriber}
      ensures subscribers == {} ==> !present
      ensures present ==> published == old(published)
    {
      if present {
        subscribers := subscribers - {subscriber};
        if subscribers == {} {
          present, published := false, 0;
        }
      }
      subscriber.closed := true;
    }

    method Close()
      requires Valid()
      modifies this, subscribers
      ensures Valid() && closed && (!old(closed) ==> !present)
      ensures forall s :: s in old(subscribers) ==>
        s.View() == if old(closed) then old(s.View()) else old(s.View()).(closed := true, reset := Some(HubShutdown))
    {
      if closed {
        return;
      }
      closed := true;
      var left := subscribers;
      while left != {}
        invariant left <= subscribers && subscribers == old(subscribers) && closed
        invariant forall s :: s in subscribers ==>
          s.View() == if s in left then old(s.View()) else old(s.View()).(closed := true, reset := Some(HubShutdown))
        decreases left
      {
        var s :| s in left;
        s.closed, s.reset, s.resetReason := true, true, HubShutdown;
        left := left - {s};
      }
      present, published, subscribers := false, 0, {};
    }
  }

  ghost predicate Rising(records: seq<Record>, after: nat) {
    && (forall i :: 0 <= i < |records| ==> records[i].sequence > after)
    && (forall i, j :: 0 <= i < j < |records| ==> records[i].sequence < records[j].sequence)
  }

  /** The pump's inner loop. */
  method PublishAll(hub: ProjectHub, events: seq<Record>)
    requires hub.Valid() && hub.present && Rising(events, hub.published)
    modifies hub`published, hub.subscribers
    ensures hub.Valid()
    ensures hub.published == if events == [] then old(hub.published) else events[|events| - 1].sequence
    ensures forall s :: s in hub.subscribers ==> s.View() == OfferedAll(old(s.View()), events)
  {
    hide Offered;
    for index := 0 to |events|
      invariant hub.Valid() && hub.present
      invariant hub.published == if index == 0 then old(hub.published) else events[index - 1].sequence
      invariant forall s :: s in hub.subscribers ==> s.View() == OfferedAll(old(s.View()), events[..index])
    {
      forall s | s in hub.subscribers
        ensures OfferedAll(old(s.View()), events[..index + 1])
                == Offered(OfferedAll(old(s.View()), events[..index]), events[index])
      {
        OfferedNext(old(s.View()), events, index);
      }
      hide OfferedAll;
      hub.Publish(events[index]);
    }
    assert events[..|events|] == events;
  }

  lemma DueIsRising(rows: seq<Record>, log: seq<Record>, after: nat)
    requires JournalInv(rows, log) && after < |log|
    ensures var due := Between(rows, after, |log|);
      Rising(due, after) && due != [] && due[|due| - 1].sequence == |log|
  {
    var due := Between(rows, after, |log|);
    PumpStartKeeps(rows, log, after);
    forall i | 0 <= i < |due| ensures due[i].sequence > after {
      BetweenMembers(rows, after, |log|, due[i]);
    }
  }

  /** One synchronization under the store mutex: the hub ends at the journal's
    * high watermark, and every subscriber was offered exactly the retained
    * records above the old published sequence, in order. */
  method SyncOnce(hub: ProjectHub, journal: AgentJournal)
    requires hub.Valid() && journal.Valid()
    modifies hub`published, hub.subscribers
    ensures hub.Valid() && journal.Valid()
    ensures var active := hub.present && hub.subscribers != {} && old(hub.published) < journal.highWatermark;
      && hub.published == (if active then journal.highWatermark else old(hub.published))
      && forall s :: s in hub.subscribers ==>
           s.View() == if active
                       then OfferedAll(old(s.View()), Between(journal.rows, old(hub.published), journal.highWatermark))
                       else old(s.View())
  {
    if !hub.present || hub.subscribers == {} {
      return;
    }
    var after := hub.published;
    if journal.highWatermark <= after {
      return;
    }
    DueIsRising(journal.rows, journal.log, after);
    hide JournalInv, Between, Rising, OfferedAll;
    PublishAll(hub, Between(journal.rows, after, journal.highWatermark));
  }
}
