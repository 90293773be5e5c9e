/** The stream pump: re-publishes from the journal what notifications lost or
  * reordered.  It runs here against a journal that does not change meanwhile.
  */
module ConversationStreamPump {
  import opened Wrappers
  import opened EventJournal
  import opened ConversationStream

  const PAGE_BYTES: nat := 49152

  // ----- what one synchronization walks -----

  /** The rows at the front that follow each other from the cursor on. */
  function Leading(items: seq<Event>, after: nat): (lead: seq<Event>)
    ensures lead <= items
    ensures forall i :: 0 <= i < |lead| ==> lead[i].sequence == after + 1 + i
    ensures |lead| < |items| ==> items[|lead|].sequence != after + 1 + |lead|
  {
    if items == [] || items[0].sequence != after + 1 then []
    else
      var rest := Leading(items[1..], after + 1);
      [items[0]] + rest
  }

  /** A page the journal does not give: the cursor is lost, its first row or its
    * final form is too large. */
  predicate Refused(rows: seq<Event>, after: nat, measure: Page -> nat) {
    || CursorLost(rows, after) || ItemTooLarge(rows, after, PAGE_BYTES, measure)
    || measure(FinalPage(rows, after, MAXIMUM_EVENT_PAGE, PAGE_BYTES, measure)) > PAGE_BYTES
  }

  function PageAt(rows: seq<Event>, after: nat, measure: Page -> nat): seq<Event> {
    FinalPage(rows, after, MAXIMUM_EVENT_PAGE, PAGE_BYTES, measure).items
  }

  /** Page by page from the cursor to the watermark, until a page is refused or
    * breaks the order. */
  function Walked(rows: seq<Event>, after: nat, measure: Page -> nat): (seq<Event>, bool)
    decreases if after < Latest(rows) then Latest(rows) - after else 0
  {
    if after >= Latest(rows) then ([], true)
    else if Refused(rows, after, measure) || PageAt(rows, after, measure) == [] then ([], false)
    else
      var items := PageAt(rows, after, measure);
      var lead := Leading(items, after);
      if |lead| < |items| then (lead, false)
      else
        var (rest, whole) := Walked(rows, after + |lead|, measure);
        (lead + rest, whole)
  }

  /** The cursors at which it asks for a page. */
  function Cursors(rows: seq<Event>, after: nat, measure: Page -> nat): seq<nat>
    decreases if after < Latest(rows) then Latest(rows) - after else 0
  {
    if after >= Latest(rows) then []
    else
      var items := PageAt(rows, after, measure);
      var lead := Leading(items, after);
      [after] + if Refused(rows, after, measure) || lead == [] || |lead| < |items| then []
                else Cursors(rows, after + |lead|, measure)
  }

  ghost predicate InRow(events: seq<Event>, after: nat) {
    forall i :: 0 <= i < |events| ==> events[i].sequence == after + 1 + i
  }

  /** No sequence above the cursor is missing. */
  ghost predicate Whole(rows: seq<Event>, after: nat) {
    InRow(After(rows, after), after)
  }

  lemma PageIsFront(rows: seq<Event>, after: nat, measure: Page -> nat)
    requires Ordered(rows) && !Refused(rows, after, measure) && after < Latest(rows)
    ensures PageAt(rows, after, measure) != [] && PageAt(rows, after, measure) <= After(rows, after)
  {
    FinalIsPage(rows, after, MAXIMUM_EVENT_PAGE, PAGE_BYTES, measure);
    if After(rows, after) == [] {
      LastReached(rows, after);
    }
  }

  /** Where a walked page leaves the rest. */
  lemma PageLeaves(rows: seq<Event>, after: nat, n: nat)
    requires Ordered(rows) && !CursorLost(rows, after) && 0 < n <= |After(rows, after)|
    requires After(rows, after)[n - 1].sequence == after + n
    ensures After(rows, after + n) == After(rows, after)[n..] && after + n <= Latest(rows)
    ensures !CursorLost(rows, after + n)
  {
    hide *;
    AfterAdvances(rows, after, n);
  }

  /** The pump gets to the watermark exactly when no sequence above the cursor is
    * missing and no page it asks for is refused; then it walks every row above
    * the cursor, in order. */
  lemma {:induction false} WalkIsWholeIff(rows: seq<Event>, after: nat, measure: Page -> nat)
    requires Ordered(rows) && !CursorLost(rows, after)
    ensures Walked(rows, after, measure).1 <==>
      Whole(rows, after) && forall c :: c in Cursors(rows, after, measure) ==> !Refused(rows, c, measure)
    ensures Walked(rows, after, measure).1 ==> Walked(rows, after, measure).0 == After(rows, after)
    ensures Walked(rows, after, measure).0 <= After(rows, after)
    ensures InRow(Walked(rows, after, measure).0, after)
    decreases if after < Latest(rows) then Latest(rows) - after else 0
  {
    hide Walked, Cursors, Refused, Whole, After, CursorLost, Ordered, Leading, PageAt;
    if after >= Latest(rows) {
      NothingAfter(rows, after);
      WalkEnds(rows, after, measure);
    } else if Refused(rows, after, measure) {
      WalkIsRefused(rows, after, measure);
    } else {
      PageIsFront(rows, after, measure);
      var n := |Leading(PageAt(rows, after, measure), after)|;
      if n < |PageAt(rows, after, measure)| {
        WalkBreaks(rows, after, measure);
      } else {
        WalkGoesOn(rows, after, measure);
        PageLeaves(rows, after, n);
        WalkIsWholeIff(rows, after + n, measure);
        WholeSplits(rows, after, n);
        WalkJoins(rows, after, n, measure);
      }
    }
  }

  lemma WalkEnds(rows: seq<Event>, after: nat, measure: Page -> nat)
    requires after >= Latest(rows) && After(rows, after) == []
    ensures Walked(rows, after, measure) == ([], true) && Cursors(rows, after, measure) == [] && Whole(rows, after)
  {
  }

  lemma WalkIsRefused(rows: seq<Event>, after: nat, measure: Page -> nat)
    requires after < Latest(rows) && Refused(rows, after, measure)
    ensures Walked(rows, after, measure) == ([], false) && after in Cursors(rows, after, measure)
  {
  }

  /** A page that breaks the order. */
  lemma WalkBreaks(rows: seq<Event>, after: nat, measure: Page -> nat)
    requires after < Latest(rows) && !Refused(rows, after, measure)
    requires PageAt(rows, after, measure) != [] && PageAt(rows, after, measure) <= After(rows, after)
    requires |Leading(PageAt(rows, after, measure), after)| < |PageAt(rows, after, measure)|
    ensures Walked(rows, after, measure) == (Leading(PageAt(rows, after, measure), after), false)
    ensures !Whole(rows, after) && Walked(rows, after, measure).0 <= After(rows, after)
    ensures InRow(Walked(rows, after, measure).0, after)
  {
    var items := PageAt(rows, after, measure);
    var lead := Leading(items, after);
    assert Walked(rows, after, measure) == (lead, false);
    hide Walked, Refused, PageAt, After;
    assert After(rows, after)[|lead|] == items[|lead|];
  }

  /** A page that follows on. */
  lemma WalkGoesOn(rows: seq<Event>, after: nat, measure: Page -> nat)
    requires after < Latest(rows) && !Refused(rows, after, measure)
    requires PageAt(rows, after, measure) != [] && PageAt(rows, after, measure) <= After(rows, after)
    requires |Leading(PageAt(rows, after, measure), after)| == |PageAt(rows, after, measure)|
    ensures var n := |Leading(PageAt(rows, after, measure), after)|;
      && 0 < n <= |After(rows, after)| && After(rows, after)[n - 1].sequence == after + n
      && (forall i :: 0 <= i < n ==> After(rows, after)[i].sequence == after + 1 + i)
      && Walked(rows, after, measure)
         == (After(rows, after)[..n] + Walked(rows, after + n, measure).0, Walked(rows, after + n, measure).1)
      && Cursors(rows, after, measure) == [after] + Cursors(rows, after + n, measure)
  {
    UnfoldWalk(rows, after, measure);
    hide Walked, Cursors, Refused, PageAt, After;
    var items := PageAt(rows, after, measure);
    var lead := Leading(items, after);
    assert lead == items == After(rows, after)[..|lead|];
    hide Leading;
    assert forall i :: 0 <= i < |lead| ==> After(rows, after)[i] == lead[i];
  }

  lemma UnfoldBreak(rows: seq<Event>, after: nat, measure: Page -> nat)
    requires after < Latest(rows) && !Refused(rows, after, measure) && PageAt(rows, after, measure) != []
    requires |Leading(PageAt(rows, after, measure), after)| < |PageAt(rows, after, measure)|
    ensures Walked(rows, after, measure) == (Leading(PageAt(rows, after, measure), after), false)
  {
    hide Leading, PageAt, Refused, Latest;
  }

  lemma UnfoldWalk(rows: seq<Event>, after: nat, measure: Page -> nat)
    requires after < Latest(rows) && !Refused(rows, after, measure) && PageAt(rows, after, measure) != []
    requires |Leading(PageAt(rows, after, measure), after)| == |PageAt(rows, after, measure)|
    ensures var lead := Leading(PageAt(rows, after, measure), after);
      && Walked(rows, after, measure)
         == (lead + Walked(rows, after + |lead|, measure).0, Walked(rows, after + |lead|, measure).1)
      && Cursors(rows, after, measure) == [after] + Cursors(rows, after + |lead|, measure)
  {
    hide Leading, PageAt, Refused, Latest;
  }

  lemma WalkJoins(rows: seq<Event>, after: nat, n: nat, measure: Page -> nat)
    requires 0 < n <= |After(rows, after)| && After(rows, after + n) == After(rows, after)[n..]
    requires forall i :: 0 <= i < n ==> After(rows, after)[i].sequence == after + 1 + i
    requires Walked(rows, after, measure)
      == (After(rows, after)[..n] + Walked(rows, after + n, measure).0, Walked(rows, after + n, measure).1)
    requires Cursors(rows, after, measure) == [after] + Cursors(rows, after + n, measure)
    requires Walked(rows, after + n, measure).0 <= After(rows, after + n)
    requires Walked(rows, after + n, measure).1 ==> Walked(rows, after + n, measure).0 == After(rows, after + n)
    requires InRow(Walked(rows, after + n, measure).0, after + n)
    ensures Walked(rows, after, measure).0 <= After(rows, after)
    ensures Walked(rows, after, measure).1 ==> Walked(rows, after, measure).0 == After(rows, after)
    ensures InRow(Walked(rows, after, measure).0, after)
    ensures forall c :: c in Cursors(rows, after, measure) <==> c == after || c in Cursors(rows, after + n, measure)
  {
    hide After, Walked, Cursors;
    var all := After(rows, after);
    assert all == all[..n] + all[n..];
  }

  lemma NothingAfter(rows: seq<Event>, after: nat)
    requires Ordered(rows) && after >= Latest(rows)
    ensures After(rows, after) == []
  {
    var k := AfterIsSuffix(rows, after);
  }

  lemma WholeSplits(rows: seq<Event>, after: nat, n: nat)
    requires n <= |After(rows, after)| && After(rows, after + n) == After(rows, after)[n..]
    requires forall i :: 0 <= i < n ==> After(rows, after)[i].sequence == after + 1 + i
    ensures Whole(rows, after) <==> Whole(rows, after + n)
  {
    var all, rest := After(rows, after), After(rows, after + n);
    assert forall i :: 0 <= i < |rest| ==> rest[i] == all[n + i];
    forall i | n <= i < |all| ensures all[i] == rest[i - n] {
    }
    hide After;
  }

  // ----- what it publishes -----

  /** Events published one after another: the hub's entry, and all that is handed
    * to the subscribers. */
  function PublishedAll(c: Conv, events: seq<Event>): (Conv, seq<Event>) {
    if events == [] then (c, [])
    else
      var (before, handed) := PublishedAll(c, events[..|events| - 1]);
      var (after, more) := Published(before, events[|events| - 1]);
      (after, handed + more)
  }

  lemma PublishedKeepsKeys(conv: Conv, e: Event)
    requires Keyed(conv.pending)
    ensures Keyed(Published(conv, e).0.pending) && Published(conv, e).0.initialized == conv.initialized
    ensures conv.published <= Published(conv, e).0.published
    ensures conv.initialized && e.sequence <= conv.published + 1 ==> e.sequence <= Published(conv, e).0.published
  {
    if conv.initialized && e.sequence == conv.published + 1 {
      DrainIsConsecutive(conv.(published := e.sequence));
    }
  }

  /** One event in order, or one already passed. */
  lemma PublishedInOrder(conv: Conv, e: Event)
    requires Keyed(conv.pending) && conv.initialized && e.sequence <= conv.published + 1
    ensures var (conv', handed) := Published(conv, e);
      && |handed| == conv'.published - conv.published
      && forall i :: 0 <= i < |handed| ==> handed[i].sequence == conv.published + 1 + i
    ensures forall x :: x in Published(conv, e).1 ==> x == e || (x.sequence in conv.pending && conv.pending[x.sequence] == x)
    ensures Published(conv, e).0.pending.Keys <= conv.pending.Keys
    ensures forall k :: k in Published(conv, e).0.pending ==> Published(conv, e).0.pending[k] == conv.pending[k]
  {
    if e.sequence == conv.published + 1 {
      DrainIsConsecutive(conv.(published := e.sequence));
    }
  }

  ghost predicate HeldFrom(pending: map<nat, Event>, log: seq<Event>) {
    forall k :: k in pending ==> 1 <= k <= |log| && pending[k] == log[k - 1] && pending[k].sequence == k
  }

  /** Publishing the rows above the published sequence, in order, hands out
    * exactly the history up to the new published sequence, which is at least the
    * last of them; held successors follow at once. */
  lemma {:induction false} InOrderIsHistory(conv: Conv, events: seq<Event>, log: seq<Event>)
    requires conv.initialized && HeldFrom(conv.pending, log) && conv.published + |events| <= |log|
    requires events == log[conv.published..conv.published + |events|]
    requires forall i :: 0 <= i < |log| ==> log[i].sequence == i + 1
    ensures var (conv', handed) := PublishedAll(conv, events);
      && conv'.initialized && HeldFrom(conv'.pending, log)
      && conv.published + |events| <= conv'.published <= |log|
      && handed == log[conv.published..conv'.published]
    decreases |events|
  {
    hide Published, HeldFrom;
    if events == [] {
      PublishesNothing(conv, log);
    } else {
      var n := |events| - 1;
      InOrderIsHistory(conv, events[..n], log);
      var before := PublishedAll(conv, events[..n]).0;
      assert events[n] == log[conv.published + n];
      OneMore(before, events[n], log);
      HandedJoin(conv, events, before, log);
    }
  }

  lemma HandedJoin(conv: Conv, events: seq<Event>, before: Conv, log: seq<Event>)
    requires events != [] && PublishedAll(conv, events[..|events| - 1]).0 == before
    requires conv.published <= before.published <= Published(before, events[|events| - 1]).0.published <= |log|
    requires PublishedAll(conv, events[..|events| - 1]).1 == log[conv.published..before.published]
    requires Published(before, events[|events| - 1]).1
      == log[before.published..Published(before, events[|events| - 1]).0.published]
    ensures PublishedAll(conv, events).0 == Published(before, events[|events| - 1]).0
    ensures PublishedAll(conv, events).1 == log[conv.published..PublishedAll(conv, events).0.published]
  {
    hide Published;
    var after := Published(before, events[|events| - 1]).0;
    assert PublishedAll(conv, events).0 == after;
    assert log[conv.published..before.published] + log[before.published..after.published]
        == log[conv.published..after.published];
  }

  lemma PublishesNothing(conv: Conv, log: seq<Event>)
    requires conv.initialized && conv.published <= |log|
    ensures PublishedAll(conv, []) == (conv, []) && log[conv.published..conv.published] == []
  {
  }

  lemma OneMore(conv: Conv, e: Event, log: seq<Event>)
    requires conv.initialized && HeldFrom(conv.pending, log) && conv.published <= |log|
    requires 1 <= e.sequence <= |log| && e == log[e.sequence - 1] && e.sequence <= conv.published + 1
    requires forall i :: 0 <= i < |log| ==> log[i].sequence == i + 1
    ensures var (conv', handed) := Published(conv, e);
      && conv'.initialized && HeldFrom(conv'.pending, log)
      && e.sequence <= conv'.published && conv.published <= conv'.published <= |log|
      && handed == log[conv.published..conv'.published]
  {
    PublishedKeepsKeys(conv, e);
    PublishedInOrder(conv, e);
    var (conv', handed) := Published(conv, e);
    hide Published;
    forall i | 0 <= i < |handed| ensures 1 <= handed[i].sequence <= |log| && handed[i] == log[conv.published + i] {
      assert handed[i] in handed;
    }
    if handed != [] {
      assert handed[|handed| - 1].sequence == conv'.published;
    }
  }

  lemma {:induction false} EnqueuedJoins(s: Sub, a: seq<Event>, b: seq<Event>, size: Event -> nat)
    ensures EnqueueAll(EnqueueAll(s, a, size), b, size) == EnqueueAll(s, a + b, size)
  {
    if b == [] {
      assert a + b == a;
    } else {
      var n := |b| - 1;
      assert (a + b)[..|a| + n] == a + b[..n] && (a + b)[|a| + n] == b[n];
      EnqueuedJoins(s, a, b[..n], size);
    }
  }

  lemma {:induction false} PublishedJoins(c: Conv, a: seq<Event>, b: seq<Event>)
    ensures var (mid, handed) := PublishedAll(c, a);
      var (end, more) := PublishedAll(mid, b);
      PublishedAll(c, a + b) == (end, handed + more)
  {
    var (mid, handed) := PublishedAll(c, a);
    if b == [] {
      assert a + b == a && handed + [] == handed;
    } else {
      var n := |b| - 1;
      assert (a + b)[..|a| + n] == a + b[..n] && (a + b)[|a| + n] == b[n];
      PublishedJoins(c, a, b[..n]);
      var (end, more) := PublishedAll(mid, b[..n]);
      var last := Published(end, b[n]).1;
      assert handed + more + last == handed + (more + last);
    }
  }

  // ----- the pump -----

  /** Where a hub stands that published `done`, and what its subscribers hold. */
  ghost predicate Reached(hub: Hub, conv: Conv, views: map<Subscriber, Sub>, done: seq<Event>)
    reads hub, hub.subscribers
  {
    && !hub.closed && hub.present && hub.Conversation() == PublishedAll(conv, done).0
    && forall s :: s in hub.subscribers ==>
         s in views && s.View() == EnqueueAll(views[s], PublishedAll(conv, done).1, hub.size)
  }

  lemma ReachedStep(conv: Conv, done: seq<Event>, e: Event, view: Sub, size: Event -> nat)
    ensures var (mid, handed) := PublishedAll(conv, done);
      var (end, more) := Published(mid, e);
      && PublishedAll(conv, done + [e]) == (end, handed + more)
      && EnqueueAll(EnqueueAll(view, handed, size), more, size) == EnqueueAll(view, handed + more, size)
  {
    assert (done + [e])[..|done|] == done;
    EnqueuedJoins(view, PublishedAll(conv, done).1, Published(PublishedAll(conv, done).0, e).1, size);
  }

  /** One event of the walk. */
  method PublishNext(hub: Hub, event: Event, ghost conv: Conv, ghost views: map<Subscriber, Sub>, ghost done: seq<Event>)
    requires hub.Valid() && Keyed(hub.pending) && event.sequence > 0
    requires !hub.closed && hub.present ==> Reached(hub, conv, views, done)
    modifies hub`published, hub`pending, hub.subscribers
    ensures hub.Valid() && Keyed(hub.pending) && hub.published >= old(hub.published)
    ensures !hub.closed && hub.present ==> Reached(hub, conv, views, done + [event])
    ensures hub.initialized && hub.present && !hub.closed && event.sequence <= old(hub.published) + 1 ==>
      hub.published >= event.sequence
  {
    PublishedKeepsKeys(hub.Conversation(), event);
    hub.PublishFor(event);
    hide PublishedAll, EnqueueAll, Published;
    if !hub.closed && hub.present {
      forall s | s in hub.subscribers
        ensures s.View() == EnqueueAll(views[s], PublishedAll(conv, done + [event]).1, hub.size)
      {
        ReachedStep(conv, done, event, views[s], hub.size);
      }
      ReachedStep(conv, done, event, NEW_SUB, hub.size);
    }
  }

  /** The rows of one page, while they follow each other. */
  method PublishPage(hub: Hub, items: seq<Event>, from: nat, latest: nat, ghost conv: Conv,
                     ghost views: map<Subscriber, Sub>, ghost done: seq<Event>) returns (after: nat, failed: bool)
    requires hub.Valid() && Keyed(hub.pending) && from < latest
    requires Ordered(items) && forall i :: 0 <= i < |items| ==> items[i].sequence <= latest
    requires !hub.closed && hub.present ==> Reached(hub, conv, views, done)
    requires hub.initialized && hub.present && !hub.closed ==> hub.published >= from
    modifies hub`published, hub`pending, hub.subscribers
    ensures hub.Valid() && Keyed(hub.pending) && hub.published >= old(hub.published)
    ensures after == from + |Leading(items, from)| <= latest && (failed <==> |Leading(items, from)| < |items|)
    ensures hub.initialized && hub.present && !hub.closed ==> hub.published >= after
    ensures !hub.closed && hub.present ==> Reached(hub, conv, views, done + Leading(items, from))
  {
    hide PublishedAll, EnqueueAll, Leading, Reached;
    after, failed := from, false;
    var expected := after + 1;
    var index := 0;
    assert done + items[..0] == done;
    while index < |items|
      invariant 0 <= index <= |items| && expected == after + 1 && after == from + index <= latest && !failed
      invariant forall i :: 0 <= i < index ==> items[i].sequence == from + 1 + i
      invariant hub.Valid() && Keyed(hub.pending) && hub.published >= old(hub.published)
      invariant hub.initialized && hub.present && !hub.closed ==> hub.published >= after
      invariant !hub.closed && hub.present ==> Reached(hub, conv, views, done + items[..index])
      modifies hub`published, hub`pending, hub.subscribers
    {
      var event := items[index];
      if event.sequence != expected {
        failed := true;
        break;
      }
      assert done + items[..index] + [event] == done + items[..index + 1];
      PublishNext(hub, event, conv, views, done + items[..index]);
      after := event.sequence;
      expected := expected + 1;
      index := index + 1;
      if after >= latest {
        break;
      }
    }
    LeadingIs(items, from, index);
  }

  /** One synchronization: the rows it walks are published one after another, and
    * every subscriber is handed what that hands out; a lost cursor, a missing row
    * or a refused page resets every subscriber. */
  method SyncOnce(hub: Hub, journal: Journal, measure: Page -> nat) returns (reset: Option<Reason>)
    requires hub.Valid() && Keyed(hub.pending) && Ordered(journal.rows)
    modifies hub`published, hub`pending, hub.subscribers
    ensures hub.Valid() && hub.published >= old(hub.published)
    ensures !hub.present || hub.subscribers == {} || old(hub.published) >= Latest(journal.rows) ==>
      && reset == None && hub.Conversation() == old(hub.Conversation())
      && forall s :: s in hub.subscribers ==> s.View() == old(s.View())
    ensures hub.present && hub.subscribers != {} && old(hub.published) < Latest(journal.rows)
            && CursorLost(journal.rows, old(hub.published)) ==>
      && reset == Some(CursorGone) && hub.Conversation() == old(hub.Conversation())
      && forall s :: s in hub.subscribers ==> s.View() == MarkedReset(old(s.View()), CursorGone)
    ensures hub.present && hub.subscribers != {} && old(hub.published) < Latest(journal.rows)
            && !CursorLost(journal.rows, old(hub.published)) && !hub.closed ==>
      Ends(hub, old(hub.Conversation()), old(Views(hub)), Walked(journal.rows, old(hub.published), measure), reset)
    ensures reset.None? && !hub.closed && hub.present && hub.initialized && hub.subscribers != {} ==>
      hub.published >= Latest(journal.rows)
    ensures reset.Some? ==> forall s :: s in hub.subscribers ==> s.View().closed || s.View().reset.Some?
  {
    reset := None;
    if !hub.present || hub.subscribers == {} {
      return;
    }
    var after := hub.published;
    var latest, earliest := Latest(journal.rows), Earliest(journal.rows);
    if latest <= after {
      return;
    }
    if earliest > 1 && after < earliest - 1 {
      hub.ResetAll(CursorGone);
      return Some(CursorGone);
    }
    reset := PublishThrough(hub, journal, measure);
  }

  /** From a cursor that is not lost to the watermark. */
  method PublishThrough(hub: Hub, journal: Journal, measure: Page -> nat) returns (reset: Option<Reason>)
    requires hub.Valid() && Keyed(hub.pending) && Ordered(journal.rows) && hub.present
    requires hub.published < Latest(journal.rows)
    modifies hub`published, hub`pending, hub.subscribers
    ensures hub.Valid() && hub.published >= old(hub.published)
    ensures !hub.closed ==> Ends(hub, old(hub.Conversation()), old(Views(hub)),
                                 Walked(journal.rows, old(hub.published), measure), reset)
    ensures reset.None? && !hub.closed && hub.initialized ==> hub.published >= Latest(journal.rows)
    ensures reset.Some? ==> forall s :: s in hub.subscribers ==> s.View().closed || s.View().reset.Some?
  {
    hide PublishedAll, EnqueueAll, Walked, Ordered, Latest;
    ghost var conv, views := hub.Conversation(), Views(hub);
    var stopped := PublishPages(hub, journal, measure, conv, views);
    reset := None;
    if stopped {
      hub.ResetAll(SequenceGap);
      reset := Some(SequenceGap);
    }
  }

  method PublishPages(hub: Hub, journal: Journal, measure: Page -> nat, ghost conv: Conv,
                      ghost views: map<Subscriber, Sub>) returns (stopped: bool)
    requires hub.Valid() && Keyed(hub.pending) && Ordered(journal.rows) && hub.present
    requires hub.published < Latest(journal.rows) && conv == hub.Conversation() && views == Views(hub)
    modifies hub`published, hub`pending, hub.subscribers
    ensures hub.Valid() && hub.published >= old(hub.published)
    ensures stopped == !Walked(journal.rows, old(hub.published), measure).1
    ensures !hub.closed ==> Reached(hub, conv, views, Walked(journal.rows, old(hub.published), measure).0)
    ensures !stopped && !hub.closed && hub.initialized ==> hub.published >= Latest(journal.rows)
  {
    StartsReached(hub, conv, views);
    hide PublishedAll, EnqueueAll, Walked, Ordered, Latest, Reached;
    var after := hub.published;
    ghost var start, whole := after, Walked(journal.rows, after, measure);
    ghost var done: seq<Event> := [];
    assert done + whole.0 == whole.0;
    while after < Latest(journal.rows)
      invariant hub.Valid() && Keyed(hub.pending) && hub.published >= start && start <= after <= Latest(journal.rows)
      invariant hub.initialized && !hub.closed ==> hub.published >= after
      invariant !hub.closed ==> Reached(hub, conv, views, done)
      invariant whole == (done + Walked(journal.rows, after, measure).0, Walked(journal.rows, after, measure).1)
      modifies hub`published, hub`pending, hub.subscribers
      decreases Latest(journal.rows) - after
    {
      ghost var more: seq<Event>;
      ghost var walk := Walked(journal.rows, after, measure);
      after, stopped, more := SyncPage(hub, journal, measure, after, conv, views, done);
      WalkAdds(whole, done, walk, more, Walked(journal.rows, after, measure), stopped);
      done := done + more;
      if stopped {
        return true;
      }
    }
    WalkedThrough(journal.rows, after, measure);
    assert done + [] == done;
    stopped := false;
  }

  function Views(hub: Hub): map<Subscriber, Sub>
    reads hub, hub.subscribers
  {
    map s | s in hub.subscribers :: s.View()
  }

  /** How a synchronization leaves the hub and what its subscribers hold. */
  ghost predicate Ends(hub: Hub, conv: Conv, views: map<Subscriber, Sub>, walk: (seq<Event>, bool), reset: Option<Reason>)
    reads hub, hub.subscribers
  {
    && reset == (if walk.1 then None else Some(SequenceGap)) && hub.Conversation() == PublishedAll(conv, walk.0).0
    && forall s :: s in hub.subscribers ==>
         && s in views
         && s.View() == if walk.1 then EnqueueAll(views[s], PublishedAll(conv, walk.0).1, hub.size)
                        else MarkedReset(EnqueueAll(views[s], PublishedAll(conv, walk.0).1, hub.size), SequenceGap)
  }

  lemma StartsReached(hub: Hub, conv: Conv, views: map<Subscriber, Sub>)
    requires conv == hub.Conversation() && views == Views(hub)
    ensures !hub.closed && hub.present ==> Reached(hub, conv, views, [])
  {
  }

  lemma WalkedThrough(rows: seq<Event>, after: nat, measure: Page -> nat)
    requires after >= Latest(rows)
    ensures Walked(rows, after, measure) == ([], true)
  {
  }

  lemma WalkAdds(whole: (seq<Event>, bool), done: seq<Event>, walk: (seq<Event>, bool), more: seq<Event>,
      rest: (seq<Event>, bool), stopped: bool)
    requires whole == (done + walk.0, walk.1)
    requires walk == if stopped then (more, false) else (more + rest.0, rest.1)
    ensures whole == if stopped then (done + more, false) else (done + more + rest.0, rest.1)
  {
    assert done + (more + rest.0) == done + more + rest.0;
  }

  /** One page of it: `more` is what it publishes. */
  method SyncPage(hub: Hub, journal: Journal, measure: Page -> nat, from: nat, ghost conv: Conv,
                  ghost views: map<Subscriber, Sub>, ghost done: seq<Event>)
      returns (after: nat, stopped: bool, ghost more: seq<Event>)
    requires hub.Valid() && Keyed(hub.pending) && Ordered(journal.rows) && from < Latest(journal.rows)
    requires !hub.closed && hub.present ==> Reached(hub, conv, views, done)
    requires hub.initialized && hub.present && !hub.closed ==> hub.published >= from
    modifies hub`published, hub`pending, hub.subscribers
    ensures hub.Valid() && Keyed(hub.pending) && hub.published >= old(hub.published)
    ensures from <= after <= Latest(journal.rows) && (!stopped ==> after > from)
    ensures hub.initialized && hub.present && !hub.closed ==> hub.published >= after
    ensures !hub.closed && hub.present ==> Reached(hub, conv, views, done + more)
    ensures Walked(journal.rows, from, measure)
      == if stopped then (more, false)
         else (more + Walked(journal.rows, after, measure).0, Walked(journal.rows, after, measure).1)
  {
    hide PublishedAll, EnqueueAll, Walked, Refused, Reached, IsPage, FilledUp, FinalPage, ResetPage, ItemTooLarge,
         CursorLost, Ordered, Latest, Leading;
    var listed := journal.ListPage(from, MAXIMUM_EVENT_PAGE, PAGE_BYTES, measure);
    ListedOrStopped(journal.rows, from, measure, listed);
    if listed.Err? || listed.value.resetRequired || |listed.value.items| == 0 {
      assert done + [] == done;
      return from, true, [];
    }
    var page := listed.value;
    after, stopped := PublishPage(hub, page.items, from, Latest(journal.rows), conv, views, done);
    more := Leading(page.items, from);
    if !stopped && after < Latest(journal.rows) && !page.hasMore && page.nextSequence <= after {
      stopped := true;
    }
    if !stopped {
      assert more == page.items;
    }
  }

  lemma LeadingIs(items: seq<Event>, after: nat, n: nat)
    requires n <= |items| && (forall i :: 0 <= i < n ==> items[i].sequence == after + 1 + i)
    requires n < |items| ==> items[n].sequence != after + 1 + n
    ensures Leading(items, after) == items[..n]
  {
    var lead := Leading(items, after);
    assert lead == items[..|lead|];
  }

  lemma PageWithin(rows: seq<Event>, after: nat, page: Page)
    requires Ordered(rows) && IsPage(rows, after, page) && !page.resetRequired
    ensures Ordered(page.items) && forall i :: 0 <= i < |page.items| ==> page.items[i].sequence <= Latest(rows)
    ensures page.items != [] ==>
      && page.nextSequence == page.items[|page.items| - 1].sequence
      && page.hasMore == (page.nextSequence < Latest(rows))
  {
    hide After, CursorLost;
    var k := AfterIsSuffix(rows, after);
    assert forall i :: 0 <= i < |page.items| ==> page.items[i] == rows[k + i];
  }

  /** What the journal's answer says about the walk. */
  lemma ListedOrStopped(rows: seq<Event>, after: nat, measure: Page -> nat, listed: Result<Page, JournalError>)
    requires Ordered(rows) && after < Latest(rows) && listed != Err(Invalid) && listed != Err(SequenceExhausted)
    requires listed.Ok? ==>
      measure(listed.value) <= PAGE_BYTES && IsPage(rows, after, listed.value)
      && listed.value == if CursorLost(rows, after) then ResetPage(rows, after)
                         else FinalPage(rows, after, MAXIMUM_EVENT_PAGE, PAGE_BYTES, measure)
    requires listed == Err(EventItemTooLarge) <==> ItemTooLarge(rows, after, PAGE_BYTES, measure)
    requires listed == Err(ResponsePageTooLarge) <==>
      !ItemTooLarge(rows, after, PAGE_BYTES, measure)
      && PAGE_BYTES < measure(if CursorLost(rows, after) then ResetPage(rows, after)
                              else FinalPage(rows, after, MAXIMUM_EVENT_PAGE, PAGE_BYTES, measure))
    ensures listed.Err? || listed.value.resetRequired || |listed.value.items| == 0 ==>
      Walked(rows, after, measure) == ([], false)
    ensures listed.Ok? && !listed.value.resetRequired && |listed.value.items| > 0 ==>
      var items := listed.value.items;
      && Ordered(items) && (forall i :: 0 <= i < |items| ==> items[i].sequence <= Latest(rows))
      && listed.value.nextSequence == items[|items| - 1].sequence
      && listed.value.hasMore == (listed.value.nextSequence < Latest(rows))
      && (|Leading(items, after)| < |items| ==> Walked(rows, after, measure) == (Leading(items, after), false))
      && (|Leading(items, after)| == |items| ==>
            Walked(rows, after, measure)
              == (items + Walked(rows, after + |items|, measure).0, Walked(rows, after + |items|, measure).1))
  {
    hide FinalPage, ResetPage, CursorLost, IsPage, Ordered, Latest;
    if listed.Err? || listed.value.resetRequired || |listed.value.items| == 0 {
      RefusedStops(rows, after, measure, listed);
      hide Refused, PageAt;
    } else {
      PageWithin(rows, after, listed.value);
      PageGoesOn(rows, after, measure, listed.value);
    }
  }

  lemma RefusedStops(rows: seq<Event>, after: nat, measure: Page -> nat, listed: Result<Page, JournalError>)
    requires listed.Ok? && !listed.value.resetRequired && listed.value.items == [] ==>
      listed.value == FinalPage(rows, after, MAXIMUM_EVENT_PAGE, PAGE_BYTES, measure)
    requires listed.Ok? && listed.value.resetRequired ==> CursorLost(rows, after)
    requires listed == Err(EventItemTooLarge) ==> ItemTooLarge(rows, after, PAGE_BYTES, measure)
    requires listed == Err(ResponsePageTooLarge) ==>
      || CursorLost(rows, after)
      || PAGE_BYTES < measure(FinalPage(rows, after, MAXIMUM_EVENT_PAGE, PAGE_BYTES, measure))
    requires listed.Err? ==> listed.error == EventItemTooLarge || listed.error == ResponsePageTooLarge
    requires listed.Err? || listed.value.resetRequired || |listed.value.items| == 0
    ensures Refused(rows, after, measure) || PageAt(rows, after, measure) == []
  {
  }

  lemma PageIsTaken(rows: seq<Event>, after: nat, measure: Page -> nat, page: Page)
    requires page == FinalPage(rows, after, MAXIMUM_EVENT_PAGE, PAGE_BYTES, measure)
    requires !CursorLost(rows, after) && !ItemTooLarge(rows, after, PAGE_BYTES, measure) && measure(page) <= PAGE_BYTES
    ensures !Refused(rows, after, measure) && PageAt(rows, after, measure) == page.items
  {
    hide FinalPage, ItemTooLarge, CursorLost;
  }

  lemma PageGoesOn(rows: seq<Event>, after: nat, measure: Page -> nat, page: Page)
    requires after < Latest(rows) && page == FinalPage(rows, after, MAXIMUM_EVENT_PAGE, PAGE_BYTES, measure)
    requires !CursorLost(rows, after) && !ItemTooLarge(rows, after, PAGE_BYTES, measure)
    requires measure(page) <= PAGE_BYTES && page.items != []
    ensures |Leading(page.items, after)| < |page.items| ==>
      Walked(rows, after, measure) == (Leading(page.items, after), false)
    ensures |Leading(page.items, after)| == |page.items| ==>
      Walked(rows, after, measure)
        == (page.items + Walked(rows, after + |page.items|, measure).0, Walked(rows, after + |page.items|, measure).1)
  {
    hide Walked, Leading, Refused, PageAt, FinalPage, ItemTooLarge, CursorLost, Latest;
    PageIsTaken(rows, after, measure, page);
    if |Leading(page.items, after)| < |page.items| {
      UnfoldBreak(rows, after, measure);
    }
    if |Leading(page.items, after)| == |page.items| {
      UnfoldWalk(rows, after, measure);
      assert Leading(page.items, after) == page.items;
    }
  }

  /** Over an intact history with no refused page, a synchronization resets nobody
    * and hands every subscriber exactly the history above the published sequence,
    * up to the watermark and through what was already held behind it. */
  lemma SyncHandsOutHistory(conv: Conv, rows: seq<Event>, log: seq<Event>, measure: Page -> nat)
    requires conv.initialized && HeldFrom(conv.pending, log) && conv.published < |log| == Latest(rows)
    requires Ordered(rows) && !CursorLost(rows, conv.published) && Whole(rows, conv.published)
    requires forall i :: 0 <= i < |log| ==> log[i].sequence == i + 1
    requires forall r :: r in rows ==> 1 <= r.sequence <= |log| && log[r.sequence - 1] == r
    requires forall c :: c in Cursors(rows, conv.published, measure) ==> !Refused(rows, c, measure)
    ensures Walked(rows, conv.published, measure).1
    ensures var (conv', handed) := PublishedAll(conv, Walked(rows, conv.published, measure).0);
      conv'.published == |log| && handed == log[conv.published..]
  {
    hide *;
    WalkIsWholeIff(rows, conv.published, measure);
    RowsAreHistory(rows, log, conv.published);
    var events := log[conv.published..];
    assert log[conv.published..conv.published + |events|] == events;
    InOrderIsHistory(conv, events, log);
  }

  lemma RowsAreHistory(rows: seq<Event>, log: seq<Event>, after: nat)
    requires Ordered(rows) && Whole(rows, after) && after < |log| == Latest(rows)
    requires forall i :: 0 <= i < |log| ==> log[i].sequence == i + 1
    requires forall r :: r in rows ==> 1 <= r.sequence <= |log| && log[r.sequence - 1] == r
    ensures After(rows, after) == log[after..]
  {
    var k := AfterIsSuffix(rows, after);
    TailEnds(rows, k, after);
    hide After, Ordered, Latest;
    TailIsHistory(rows, rows[k..], log, after);
  }

  lemma TailEnds(rows: seq<Event>, k: nat, after: nat)
    requires k <= |rows| && after < Latest(rows) && forall i :: 0 <= i < k ==> rows[i].sequence <= after
    ensures k < |rows| && rows[k..][|rows[k..]| - 1].sequence == Latest(rows)
  {
  }

  lemma TailIsHistory(rows: seq<Event>, tail: seq<Event>, log: seq<Event>, after: nat)
    requires InRow(tail, after) && tail != [] && tail[|tail| - 1].sequence == |log|
    requires forall r :: r in rows ==> 1 <= r.sequence <= |log| && log[r.sequence - 1] == r
    requires forall i :: 0 <= i < |tail| ==> tail[i] in rows
    ensures after <= |log| && tail == log[after..]
  {
    assert tail[|tail| - 1].sequence == after + |tail|;
    forall i | 0 <= i < |tail| ensures tail[i] == log[after + i] {
      assert tail[i] in rows && tail[i].sequence == after + 1 + i;
    }
  }
}
