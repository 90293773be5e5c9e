/** Catalog synchronization: a snapshot read in keyset pages pinned to a
  * revision, followed by a pruned change feed, while conversations of the
  * project are written and deleted between any two reads.
  */
module ConversationCatalog {
  import opened Wrappers

  const MAXIMUM_CHANGES: nat := 4096
  const MAX_SAFE_INTEGER: nat := 9007199254740991

  /** A compact list item; identifiers are compared as the database does. */
  datatype Item = Item(id: nat, revision: nat, updatedAt: int, summary: string)

  /** A change-feed entry; a deletion carries no item. */
  datatype Change = Change(sequence: nat, id: nat, item: Option<Item>)

  datatype Key = Key(updatedAt: int, id: nat)

  /** The project's rows and retained changes, the sequence counter it shares
    * with the device's other projects, and every change it ever made. */
  datatype Catalog = Catalog(rows: map<nat, Item>, changes: seq<Change>, sequence: nat, log: seq<Change>)

  const EMPTY: Catalog := Catalog(map[], [], 0, [])

  function KeyOf(item: Item): Key {
    Key(item.updatedAt, item.id)
  }

  /** a is listed before b: newest first, then by descending identifier. */
  predicate Before(a: Key, b: Key) {
    a.updatedAt > b.updatedAt || (a.updatedAt == b.updatedAt && a.id > b.id)
  }

  // ----- writing -----

  function Newest(log: seq<Change>): seq<Change> {
    if |log| <= MAXIMUM_CHANGES then log else log[|log| - MAXIMUM_CHANGES..]
  }

  function Without(rows: map<nat, Item>, ids: seq<nat>): map<nat, Item> {
    map id | id in rows && id !in ids :: rows[id]
  }

  function Recorded(c: Catalog, change: Change): Catalog {
    var rows :=
      if change.item.Some? then c.rows[change.id := change.item.value]
      else Without(c.rows, [change.id]);
    Catalog(rows, Newest(c.changes + [change]), change.sequence, c.log + [change])
  }

  /** A create or an update: the row's revision is the change's sequence. */
  function Written(c: Catalog, id: nat, updatedAt: int, summary: string): Catalog {
    var sequence := c.sequence + 1;
    Recorded(c, Change(sequence, id, Some(Item(id, sequence, updatedAt, summary))))
  }

  /** A delete removes the conversation and its descendants in one transaction. */
  function Removed(c: Catalog, ids: seq<nat>): Catalog {
    if ids == [] then c
    else
      var before := Removed(c, ids[..|ids| - 1]);
      Recorded(before, Change(before.sequence + 1, ids[|ids| - 1], None))
  }

  lemma RemovedStep(c: Catalog, ids: seq<nat>, index: nat)
    requires index < |ids|
    ensures var before := Removed(c, ids[..index]);
      var change := Change(before.sequence + 1, ids[index], None);
      var after := Removed(c, ids[..index + 1]);
      && after.changes == Newest(before.changes + [change]) && after.sequence == change.sequence
      && after.log == before.log + [change]
  {
    assert ids[..index + 1][..index] == ids[..index];
  }

  lemma {:induction false} RemovedRows(c: Catalog, ids: seq<nat>)
    ensures Removed(c, ids).rows == Without(c.rows, ids)
  {
    if ids != [] {
      RemovedRows(c, ids[..|ids| - 1]);
      assert ids == ids[..|ids| - 1] + [ids[|ids| - 1]];
    }
  }

  /** A delete announces each removal under the next sequence. */
  lemma {:induction false} RemovedLog(c: Catalog, ids: seq<nat>)
    ensures var c' := Removed(c, ids);
      && c'.sequence == c.sequence + |ids| && |c'.log| == |c.log| + |ids| && c.log <= c'.log
      && forall i :: 0 <= i < |ids| ==> c'.log[|c.log| + i] == Change(c.sequence + i + 1, ids[i], None)
  {
    if ids != [] {
      RemovedLog(c, ids[..|ids| - 1]);
    }
  }

  /** A write leaves exactly what it was given: the row, its announcement, and
    * every other row as it was. */
  lemma WriteIsStored(c: Catalog, id: nat, updatedAt: int, summary: string)
    ensures var c' := Written(c, id, updatedAt, summary);
      && id in c'.rows && c'.rows[id] == Item(id, c.sequence + 1, updatedAt, summary)
      && (forall k :: k != id ==> (k in c'.rows <==> k in c.rows) && (k in c.rows ==> c'.rows[k] == c.rows[k]))
      && c'.sequence == c.sequence + 1
      && |c'.log| == |c.log| + 1 && c.log <= c'.log
      && c'.log[|c.log|] == Change(c.sequence + 1, id, Some(c'.rows[id]))
  {
    hide Newest;
  }

  // ----- reading -----

  function Latest(changes: seq<Change>): nat {
    if changes == [] then 0 else changes[|changes| - 1].sequence
  }

  function Minimum(changes: seq<Change>): nat {
    if changes == [] then 0 else changes[0].sequence
  }

  predicate ResetRequired(changes: seq<Change>, after: nat) {
    Minimum(changes) > 0 && after + 1 < Minimum(changes)
  }

  function After(changes: seq<Change>, after: nat): seq<Change> {
    if changes == [] then []
    else (if changes[0].sequence > after then [changes[0]] else []) + After(changes[1..], after)
  }

  ghost predicate Descending(items: seq<Item>) {
    forall i, j :: 0 <= i < j < |items| ==> Before(KeyOf(items[i]), KeyOf(items[j]))
  }

  /** What the ordered keyset query of one page yields before its limit. */
  ghost predicate IsListing(items: seq<Item>, rows: map<nat, Item>, revision: nat, cursor: Option<Key>) {
    && Descending(items)
    && forall x :: x in items <==>
         x.id in rows && rows[x.id] == x && x.revision <= revision && (cursor.None? || Before(cursor.value, KeyOf(x)))
  }

  // ----- the store -----

  class CatalogStore {
    var rows: map<nat, Item>
    var changes: seq<Change>
    var sequence: nat
    ghost var log: seq<Change>

    ghost function State(): Catalog
      reads this
    {
      Catalog(rows, changes, sequence, log)
    }

    constructor ()
      ensures State() == EMPTY
    {
      rows, changes, sequence, log := map[], [], 0, [];
    }

    /** Another project of the device takes a sequence. */
    method InsertElsewhere()
      modifies this`sequence
      ensures State() == old(State()).(sequence := old(sequence) + 1)
    {
      sequence := sequence + 1;
    }

    method AppendChange(id: nat, updatedAt: int, summary: string, deleted: bool) returns (revision: Option<nat>)
      modifies this`changes, this`sequence, this`log
      ensures revision == if old(sequence) < MAX_SAFE_INTEGER then Some(old(sequence) + 1) else None
      ensures revision.None? ==> State() == old(State())
      ensures revision.Some? ==>
        var change := Change(sequence, id, if deleted then None else Some(Item(id, sequence, updatedAt, summary)));
        State() == Catalog(rows, Newest(old(changes) + [change]), old(sequence) + 1, old(log) + [change])
    {
      if sequence >= MAX_SAFE_INTEGER {
        return None;
      }
      sequence := sequence + 1;
      var stored := Change(sequence, id, if deleted then None else Some(Item(id, sequence, updatedAt, summary)));
      changes := changes + [stored];
      if |changes| > MAXIMUM_CHANGES {
        changes := changes[|changes| - MAXIMUM_CHANGES..];
      }
      log := log + [stored];
      revision := Some(sequence);
    }

    method Write(id: nat, updatedAt: int, summary: string) returns (ok: bool)
      modifies this
      ensures ok == (old(sequence) < MAX_SAFE_INTEGER)
      ensures State() == if ok then Written(old(State()), id, updatedAt, summary) else old(State())
      ensures ok ==> rows == old(rows)[id := Item(id, old(sequence) + 1, updatedAt, summary)]
      ensures ok ==> log == old(log) + [Change(sequence, id, Some(rows[id]))] && sequence == old(sequence) + 1
      ensures ok ==> changes != [] && changes[|changes| - 1] == Change(sequence, id, Some(rows[id]))
    {
      var revision := AppendChange(id, updatedAt, summary, false);
      if revision.None? {
        return false;
      }
      rows := rows[id := Item(id, revision.value, updatedAt, summary)];
      ok := true;
    }

    /** A delete announces every removed conversation, then drops the rows. */
    method Delete(ids: seq<nat>) returns (ok: bool)
      modifies this
      ensures ok == (old(sequence) + |ids| <= MAX_SAFE_INTEGER || ids == [])
      ensures State() == if ok then Removed(old(State()), ids) else old(State())
      ensures ok ==> rows.Keys == old(rows).Keys - set id | id in ids
      ensures ok ==> forall id :: id in rows ==> rows[id] == old(rows)[id]
      ensures ok ==> sequence == old(sequence) + |ids| && |log| == old(|log|) + |ids| && old(log) <= log
      ensures ok ==> forall i :: 0 <= i < |ids| ==> log[old(|log|) + i] == Change(old(sequence) + i + 1, ids[i], None)
    {
      RemovedRows(State(), ids);
      RemovedLog(State(), ids);
      ok := AnnounceDeleted(ids);
      if ok {
        DropRows(ids);
      }
      hide Removed, Without;
    }

    /** The first loop; a failure rolls the transaction back. */
    method AnnounceDeleted(ids: seq<nat>) returns (ok: bool)
      modifies this`changes, this`sequence, this`log
      ensures ok == (old(sequence) + |ids| <= MAX_SAFE_INTEGER || ids == [])
      ensures State() == if ok then Removed(old(State()), ids).(rows := rows) else old(State())
    {
      var changes0, sequence0 := changes, sequence;
      ghost var before := State();
      assert ids[..0] == [] && Removed(before, []) == before;
      hide *;
      for index := 0 to |ids|
        invariant sequence == sequence0 + index && (index > 0 ==> sequence <= MAX_SAFE_INTEGER)
        invariant changes == Removed(before, ids[..index]).changes && sequence == Removed(before, ids[..index]).sequence
        invariant log == Removed(before, ids[..index]).log
      {
        RemovedStep(before, ids, index);
        var revision := AppendChange(ids[index], 0, "", true);
        if revision.None? {
          changes, sequence, log := changes0, sequence0, before.log;
          return false;
        }
      }
      assert ids[..|ids|] == ids;
      ok := true;
    }

    /** The second loop. */
    method DropRows(ids: seq<nat>)
      modifies this`rows
      ensures rows == Without(old(rows), ids)
    {
      for index := 0 to |ids|
        invariant rows == Without(old(rows), ids[..index])
      {
        rows := map id | id in rows && id != ids[index] :: rows[id];
        assert ids[..index + 1] == ids[..index] + [ids[index]];
      }
      assert ids[..|ids|] == ids;
    }
  }

  // ----- bounding a page to its byte budget -----

  datatype SnapshotPage = SnapshotPage(items: seq<Item>, next: Option<Key>, revision: nat)
  datatype FeedPage = FeedPage(changes: seq<Change>, acked: nat, hasMore: bool)

  /** The page that stops after n of the listed items. */
  function SnapshotPrefix(page: SnapshotPage, n: nat): SnapshotPage
    requires 0 < n <= |page.items|
  {
    SnapshotPage(page.items[..n],
                 if n < |page.items| || page.next.Some? then Some(KeyOf(page.items[n - 1])) else None, page.revision)
  }

  function FeedPrefix(page: FeedPage, n: nat): FeedPage
    requires 0 < n <= |page.changes|
  {
    FeedPage(page.changes[..n], page.changes[n - 1].sequence, n < |page.changes| || page.hasMore)
  }

  /** The longest prefix all of whose shorter prefixes fit; its cursor always
    * resumes right after its last item.  `fits` is the encoded-size test. */
  method BoundSnapshotPage(page: SnapshotPage, fits: SnapshotPage -> bool) returns (r: Option<SnapshotPage>)
    ensures page.items == [] ==> r == Some(SnapshotPage([], None, page.revision))
    ensures page.items != [] && r.None? ==> !fits(SnapshotPrefix(page, 1))
    ensures page.items != [] && r.Some? ==>
      exists n :: 0 < n <= |page.items| && LongestFit(page, fits, n) && r.value == SnapshotPrefix(page, n)
  {
    var items: seq<Item>, next: Option<Key> := [], None;
    for index := 0 to |page.items|
      invariant items == page.items[..index]
      invariant index == 0 ==> next == None
      invariant index > 0 ==> SnapshotPage(items, next, page.revision) == SnapshotPrefix(page, index)
      invariant forall k :: 0 < k <= index ==> fits(SnapshotPrefix(page, k))
    {
      items := items + [page.items[index]];
      next := None;
      if index < |page.items| - 1 || page.next.Some? {
        next := Some(KeyOf(page.items[index]));
      }
      assert SnapshotPage(items, next, page.revision) == SnapshotPrefix(page, index + 1);
      if fits(SnapshotPage(items, next, page.revision)) {
        continue;
      }
      items := items[..|items| - 1];
      if |items| == 0 {
        return None;
      }
      next := Some(KeyOf(items[|items| - 1]));
      assert LongestFit(page, fits, index);
      return Some(SnapshotPage(items, next, page.revision));
    }
    if |page.items| > 0 {
      assert LongestFit(page, fits, |page.items|);
    }
    r := Some(SnapshotPage(items, next, page.revision));
  }

  ghost predicate LongestFit(page: SnapshotPage, fits: SnapshotPage -> bool, n: nat)
    requires 0 < n <= |page.items|
  {
    && (forall k :: 0 < k <= n ==> fits(SnapshotPrefix(page, k)))
    && (n < |page.items| ==> !fits(SnapshotPrefix(page, n + 1)))
  }

  ghost predicate LongestFeed(page: FeedPage, fits: FeedPage -> bool, n: nat)
    requires 0 < n <= |page.changes|
  {
    && (forall k :: 0 < k <= n ==> fits(FeedPrefix(page, k)))
    && (n < |page.changes| ==> !fits(FeedPrefix(page, n + 1)))
  }

  method BoundFeedPage(page: FeedPage, after: nat, fits: FeedPage -> bool) returns (r: Option<FeedPage>)
    ensures page.changes == [] ==> r == Some(FeedPage([], after, page.hasMore))
    ensures page.changes != [] && r.None? ==> !fits(FeedPrefix(page, 1))
    ensures page.changes != [] && r.Some? ==>
      exists n :: 0 < n <= |page.changes| && LongestFeed(page, fits, n) && r.value == FeedPrefix(page, n)
  {
    var changes: seq<Change>, acked, hasMore := [], after, page.hasMore;
    for index := 0 to |page.changes|
      invariant changes == page.changes[..index]
      invariant index == 0 ==> acked == after && hasMore == page.hasMore
      invariant index > 0 ==> FeedPage(changes, acked, hasMore) == FeedPrefix(page, index)
      invariant forall k :: 0 < k <= index ==> fits(FeedPrefix(page, k))
    {
      changes := changes + [page.changes[index]];
      acked := page.changes[index].sequence;
      hasMore := index < |page.changes| - 1 || page.hasMore;
      assert FeedPage(changes, acked, hasMore) == FeedPrefix(page, index + 1);
      if fits(FeedPage(changes, acked, hasMore)) {
        continue;
      }
      changes := changes[..|changes| - 1];
      if |changes| == 0 {
        return None;
      }
      acked := changes[|changes| - 1].sequence;
      hasMore := true;
      assert LongestFeed(page, fits, index);
      return Some(FeedPage(changes, acked, hasMore));
    }
    if |page.changes| > 0 {
      assert LongestFeed(page, fits, |page.changes|);
    }
    r := Some(FeedPage(changes, acked, hasMore));
  }

  // ----- a client that follows the contract -----

  datatype Phase = Fresh | Paging(revision: nat, cursor: Key) | Following(ack: nat)

  /** `listed` is every snapshot item received since the last reset. */
  datatype Client = Client(phase: Phase, listed: seq<Item>, view: map<nat, Item>)

  const NEW_CLIENT: Client := Client(Fresh, [], map[])

  function Overlaid(view: map<nat, Item>, items: seq<Item>): map<nat, Item> {
    if items == [] then view
    else Overlaid(view, items[..|items| - 1])[items[|items| - 1].id := items[|items| - 1]]
  }

  function AppliedTo(view: map<nat, Item>, change: Change): map<nat, Item> {
    if change.item.Some? then view[change.id := change.item.value]
    else Without(view, [change.id])
  }

  function Applied(view: map<nat, Item>, changes: seq<Change>): map<nat, Item>
    decreases |changes|
  {
    if changes == [] then view else Applied(AppliedTo(view, changes[0]), changes[1..])
  }

  datatype World = World(catalog: Catalog, client: Client)

  datatype Action =
    | Write(id: nat, updatedAt: int, summary: string)
    | Delete(ids: seq<nat>)
    | Elsewhere
    | ReadSnapshot(all: seq<Item>, n: nat)
    | ReadFeed(n: nat)

  function SnapshotRevision(w: World): nat {
    if w.client.phase.Paging? then w.client.phase.revision else Latest(w.catalog.changes)
  }

  function SnapshotCursor(client: Client): Option<Key> {
    if client.phase.Paging? then Some(client.phase.cursor) else None
  }

  /** n items of the page were sent: the limit or the byte budget cut the rest. */
  function AfterSnapshot(w: World, all: seq<Item>, n: nat): Client
    requires n <= |all| && (all != [] ==> n > 0)
  {
    var revision := SnapshotRevision(w);
    Client(if n == |all| then Following(revision) else Paging(revision, KeyOf(all[n - 1])),
           w.client.listed + all[..n], Overlaid(w.client.view, all[..n]))
  }

  function AfterFeed(client: Client, pending: seq<Change>, n: nat): Client
    requires n <= |pending| && client.phase.Following?
  {
    client.(phase := Following(if n == 0 then client.phase.ack else pending[n - 1].sequence),
            view := Applied(client.view, pending[..n]))
  }

  ghost predicate Next(w: World, w': World, a: Action) {
    match a
    case Write(id, updatedAt, summary) =>
      w.catalog.sequence < MAX_SAFE_INTEGER && w' == w.(catalog := Written(w.catalog, id, updatedAt, summary))
    case Delete(ids) =>
      w.catalog.sequence + |ids| <= MAX_SAFE_INTEGER && w' == w.(catalog := Removed(w.catalog, ids))
    case Elsewhere => w' == w.(catalog := w.catalog.(sequence := w.catalog.sequence + 1))
    case ReadSnapshot(all, n) =>
      && !w.client.phase.Following?
      && IsListing(all, w.catalog.rows, SnapshotRevision(w), SnapshotCursor(w.client))
      && n <= |all| && (all != [] ==> n > 0)
      && w' == w.(client := AfterSnapshot(w, all, n))
    case ReadFeed(n) =>
      && w.client.phase.Following?
      && var ack, changes := w.client.phase.ack, w.catalog.changes;
         if ResetRequired(changes, ack) then w' == w.(client := NEW_CLIENT)
         else
           && n <= |After(changes, ack)| && (After(changes, ack) != [] ==> n > 0)
           && w' == w.(client := AfterFeed(w.client, After(changes, ack), n))
  }

  // ----- a page on its way from the query to the client -----

  /** What the query of at most `limit` rows, and its look-ahead, makes of the
    * listing, and of the changes after the acknowledgement. */
  function QueriedSnapshot(all: seq<Item>, limit: nat, revision: nat): SnapshotPage
    requires limit > 0
  {
    if |all| > limit then SnapshotPage(all[..limit], Some(KeyOf(all[limit - 1])), revision)
    else SnapshotPage(all, None, revision)
  }

  function QueriedFeed(pending: seq<Change>, limit: nat, after: nat): FeedPage
    requires limit > 0
  {
    var changes := if |pending| > limit then pending[..limit] else pending;
    FeedPage(changes, if changes == [] then after else changes[|changes| - 1].sequence, |pending| > limit)
  }

  /** A client resumes at the page's cursor, or follows from its revision once
    * there is none; from changes it resumes at what the page acknowledges. */
  function ReceivedSnapshot(client: Client, page: SnapshotPage): Client {
    Client(if page.next.None? then Following(page.revision) else Paging(page.revision, page.next.value),
           client.listed + page.items, Overlaid(client.view, page.items))
  }

  function ReceivedFeed(client: Client, page: FeedPage): Client {
    client.(phase := Following(page.acked), view := Applied(client.view, page.changes))
  }

  lemma SnapshotPrefixIsRead(w: World, all: seq<Item>, limit: nat, n: nat)
    requires limit > 0 && 0 < n <= |QueriedSnapshot(all, limit, SnapshotRevision(w)).items|
    ensures var page := SnapshotPrefix(QueriedSnapshot(all, limit, SnapshotRevision(w)), n);
      n <= |all| && (page.next.None? <==> n == |all|) && ReceivedSnapshot(w.client, page) == AfterSnapshot(w, all, n)
  {
    hide Overlaid;
    assert QueriedSnapshot(all, limit, SnapshotRevision(w)).items[..n] == all[..n];
  }

  lemma FeedPrefixIsRead(client: Client, pending: seq<Change>, limit: nat, n: nat)
    requires client.phase.Following? && limit > 0
    requires 0 < n <= |QueriedFeed(pending, limit, client.phase.ack).changes|
    ensures var page := FeedPrefix(QueriedFeed(pending, limit, client.phase.ack), n);
      n <= |pending| && (page.hasMore <==> n < |pending|) && ReceivedFeed(client, page) == AfterFeed(client, pending, n)
  {
    hide Applied;
    assert QueriedFeed(pending, limit, client.phase.ack).changes[..n] == pending[..n];
  }

  /** One snapshot page from the query through the byte bound to the client is
    * one step of the client's run, and has no cursor exactly when it was the
    * last; it is refused exactly when its first row does not fit. */
  method ServeSnapshot(w: World, all: seq<Item>, limit: nat, fits: SnapshotPage -> bool) returns (r: Option<SnapshotPage>)
    requires !w.client.phase.Following? && limit > 0
    requires IsListing(all, w.catalog.rows, SnapshotRevision(w), SnapshotCursor(w.client))
    ensures r.Some? ==> exists n ::
      && 0 <= n <= |all| && (r.value.next.None? <==> n == |all|)
      && Next(w, w.(client := ReceivedSnapshot(w.client, r.value)), ReadSnapshot(all, n))
    ensures r.None? <==>
      all != [] && !fits(SnapshotPrefix(QueriedSnapshot(all, limit, SnapshotRevision(w)), 1))
  {
    hide IsListing, Overlaid;
    var page := QueriedSnapshot(all, limit, SnapshotRevision(w));
    r := BoundSnapshotPage(page, fits);
    if all == [] {
      assert all[..0] == all;
      assert ReceivedSnapshot(w.client, r.value) == AfterSnapshot(w, all, 0);
      assert Next(w, w.(client := ReceivedSnapshot(w.client, r.value)), ReadSnapshot(all, 0));
    } else if r.Some? {
      ghost var n :| 0 < n <= |page.items| && LongestFit(page, fits, n) && r.value == SnapshotPrefix(page, n);
      SnapshotPrefixIsRead(w, all, limit, n);
      assert Next(w, w.(client := ReceivedSnapshot(w.client, r.value)), ReadSnapshot(all, n));
    }
  }

  /** The same for changes: a reset, or one step that signals more exactly while
    * a change is left. */
  method ServeFeed(w: World, limit: nat, fits: FeedPage -> bool) returns (reset: bool, r: Option<FeedPage>)
    requires w.client.phase.Following? && limit > 0
    ensures reset <==> ResetRequired(w.catalog.changes, w.client.phase.ack)
    ensures !reset && r.Some? ==>
      exists n :: 0 <= n <= |After(w.catalog.changes, w.client.phase.ack)|
        && (r.value.hasMore <==> n < |After(w.catalog.changes, w.client.phase.ack)|)
        && Next(w, w.(client := ReceivedFeed(w.client, r.value)), ReadFeed(n))
    ensures !reset ==> (r.None? <==>
      var pending := After(w.catalog.changes, w.client.phase.ack);
      pending != [] && !fits(FeedPrefix(QueriedFeed(pending, limit, w.client.phase.ack), 1)))
  {
    reset, r := ResetRequired(w.catalog.changes, w.client.phase.ack), None;
    if !reset {
      var ack := w.client.phase.ack;
      var pending := After(w.catalog.changes, ack);
      var page := QueriedFeed(pending, limit, ack);
      hide After, Applied;
      r := BoundFeedPage(page, ack, fits);
      if pending == [] {
        assert pending[..0] == pending;
        assert ReceivedFeed(w.client, r.value) == AfterFeed(w.client, pending, 0);
        assert Next(w, w.(client := ReceivedFeed(w.client, r.value)), ReadFeed(0));
      } else if r.Some? {
        ghost var n :| 0 < n <= |page.changes| && LongestFeed(page, fits, n) && r.value == FeedPrefix(page, n);
        FeedPrefixIsRead(w.client, pending, limit, n);
        assert Next(w, w.(client := ReceivedFeed(w.client, r.value)), ReadFeed(n));
      }
    }
  }

  ghost predicate Behavior(tr: seq<World>, actions: seq<Action>) {
    && |tr| == |actions| + 1 && tr[0] == World(EMPTY, NEW_CLIENT)
    && (forall i :: 0 <= i < |actions| ==> Next(tr[i], tr[i + 1], actions[i]))
  }

  // ----- invariants of the catalog -----

  ghost predicate TouchedAfter(log: seq<Change>, sequence: nat, id: nat) {
    exists c :: c in log && c.sequence > sequence && c.id == id
  }

  ghost predicate Ordered(log: seq<Change>) {
    forall i, j :: 0 <= i < j < |log| ==> log[i].sequence < log[j].sequence
  }

  ghost predicate LogInv(log: seq<Change>, sequence: nat) {
    && Ordered(log)
    && (forall c :: c in log ==> 1 <= c.sequence <= sequence)
    && (forall c :: c in log && c.item.Some? ==> c.item.value.id == c.id && c.item.value.revision == c.sequence)
  }

  /** Every row is the item of its conversation's last change, and a
    * conversation whose last change is a deletion has no row. */
  ghost predicate RowsInv(rows: map<nat, Item>, log: seq<Change>) {
    && (forall id :: id in rows ==>
          && Change(rows[id].revision, id, Some(rows[id])) in log
          && !TouchedAfter(log, rows[id].revision, id))
    && (forall c :: c in log && !TouchedAfter(log, c.sequence, c.id) ==>
          if c.item.Some? then c.id in rows && rows[c.id] == c.item.value else c.id !in rows)
  }

  ghost predicate CatalogInv(c: Catalog) {
    LogInv(c.log, c.sequence) && RowsInv(c.rows, c.log) && c.changes == Newest(c.log)
  }

  /** The row of a conversation does not differ from the view's. */
  predicate SameAt(view: map<nat, Item>, rows: map<nat, Item>, id: nat) {
    (id in view <==> id in rows) && (id in rows ==> id in view && view[id] == rows[id])
  }

  ghost predicate FollowingInv(c: Catalog, ack: nat, view: map<nat, Item>) {
    && ack <= c.sequence
    && forall id :: !TouchedAfter(c.log, ack, id) ==> SameAt(view, c.rows, id)
  }

  predicate Passed(cursor: Option<Key>, key: Key) {
    cursor.Some? && !Before(cursor.value, key)
  }

  /** Received items are not below the cursor, and current unless touched since. */
  ghost predicate ReceivedInv(c: Catalog, revision: nat, cursor: Option<Key>, view: map<nat, Item>) {
    forall id :: id in view ==>
      && view[id].id == id && Passed(cursor, KeyOf(view[id]))
      && (TouchedAfter(c.log, revision, id) || (id in c.rows && c.rows[id] == view[id]))
  }

  /** No row the cursor has passed was missed. */
  ghost predicate PassedInv(rows: map<nat, Item>, revision: nat, cursor: Option<Key>, view: map<nat, Item>) {
    forall id :: id in rows && rows[id].revision <= revision && Passed(cursor, KeyOf(rows[id])) ==>
      id in view && view[id] == rows[id]
  }

  ghost predicate ListedOnce(listed: seq<Item>) {
    forall i, j :: 0 <= i < j < |listed| ==> listed[i].id != listed[j].id
  }

  ghost predicate ListedInv(client: Client) {
    && ListedOnce(client.listed)
    && (client.phase.Fresh? ==> client == NEW_CLIENT)
    && (!client.phase.Following? ==> forall x :: x in client.listed ==> x.id in client.view && client.view[x.id] == x)
  }

  ghost predicate PhaseInv(c: Catalog, client: Client) {
    match client.phase
    case Fresh => true
    case Paging(revision, cursor) =>
      && revision <= c.sequence
      && ReceivedInv(c, revision, Some(cursor), client.view) && PassedInv(c.rows, revision, Some(cursor), client.view)
    case Following(ack) => FollowingInv(c, ack, client.view)
  }

  ghost predicate WorldInv(w: World) {
    CatalogInv(w.catalog) && ListedInv(w.client) && PhaseInv(w.catalog, w.client)
  }

  // ----- writing keeps the invariants -----

  lemma TouchedGrows(log: seq<Change>, change: Change)
    ensures forall s: nat, id :: TouchedAfter(log + [change], s, id) <==>
      TouchedAfter(log, s, id) || (change.id == id && change.sequence > s)
  {
    var log' := log + [change];
    assert change in log';
    forall s: nat, id
      ensures TouchedAfter(log', s, id) <==> TouchedAfter(log, s, id) || (change.id == id && change.sequence > s)
    {
      if TouchedAfter(log, s, id) {
        var c :| c in log && c.sequence > s && c.id == id;
        assert c in log';
      }
    }
  }

  lemma LogGrows(log: seq<Change>, sequence: nat, change: Change)
    requires LogInv(log, sequence) && change.sequence > sequence
    requires change.item.Some? ==> change.item.value.id == change.id && change.item.value.revision == change.sequence
    ensures LogInv(log + [change], change.sequence)
  {
    forall i | 0 <= i < |log| ensures log[i].sequence < change.sequence {
      assert log[i] in log;
    }
  }

  lemma RowsGrow(rows: map<nat, Item>, log: seq<Change>, sequence: nat, change: Change)
    requires LogInv(log, sequence) && RowsInv(rows, log) && change.sequence > sequence
    requires change.item.Some? ==> change.item.value.id == change.id && change.item.value.revision == change.sequence
    ensures RowsInv(AppliedTo(rows, change), log + [change])
  {
    var rows', log' := AppliedTo(rows, change), log + [change];
    TouchedGrows(log, change);
    hide TouchedAfter;
    assert change in log' && forall c :: c in log ==> c in log';
    forall id | id in rows'
      ensures Change(rows'[id].revision, id, Some(rows'[id])) in log' && !TouchedAfter(log', rows'[id].revision, id)
    {
      if id == change.id {
        NothingAfter(log, sequence, change.sequence, id);
      }
    }
    forall c | c in log' && !TouchedAfter(log', c.sequence, c.id)
      ensures if c.item.Some? then c.id in rows' && rows'[c.id] == c.item.value else c.id !in rows'
    {
    }
  }

  lemma NothingAfter(log: seq<Change>, sequence: nat, later: nat, id: nat)
    requires LogInv(log, sequence) && later >= sequence
    ensures !TouchedAfter(log, later, id)
  {
  }

  lemma NewestGrows(log: seq<Change>, change: Change)
    ensures Newest(Newest(log) + [change]) == Newest(log + [change])
  {
  }

  lemma RecordedKeeps(c: Catalog, change: Change)
    requires CatalogInv(c) && change.sequence == c.sequence + 1
    requires change.item.Some? ==> change.item.value.id == change.id && change.item.value.revision == change.sequence
    ensures CatalogInv(Recorded(c, change))
  {
    hide LogInv, RowsInv, Newest;
    LogGrows(c.log, c.sequence, change);
    RowsGrow(c.rows, c.log, c.sequence, change);
    NewestGrows(c.log, change);
  }

  /** A conversation nobody touched still agrees with its row. */
  lemma RecordedKeepsClient(c: Catalog, change: Change, client: Client)
    requires CatalogInv(c) && PhaseInv(c, client) && change.sequence == c.sequence + 1
    requires change.item.Some? ==> change.item.value.id == change.id && change.item.value.revision == change.sequence
    ensures PhaseInv(Recorded(c, change), client)
  {
    TouchedGrows(c.log, change);
    hide TouchedAfter, LogInv, RowsInv, Newest;
  }

  lemma {:induction false} RemovedKeeps(c: Catalog, ids: seq<nat>, client: Client)
    requires CatalogInv(c) && PhaseInv(c, client)
    ensures CatalogInv(Removed(c, ids)) && PhaseInv(Removed(c, ids), client)
  {
    if ids != [] {
      hide CatalogInv, PhaseInv, Recorded;
      var before := Removed(c, ids[..|ids| - 1]);
      var change := Change(before.sequence + 1, ids[|ids| - 1], None);
      RemovedKeeps(c, ids[..|ids| - 1], client);
      RecordedKeeps(before, change);
      RecordedKeepsClient(before, change, client);
    }
  }

  lemma ElsewhereKeeps(c: Catalog, client: Client)
    requires CatalogInv(c) && PhaseInv(c, client)
    ensures CatalogInv(c.(sequence := c.sequence + 1)) && PhaseInv(c.(sequence := c.sequence + 1), client)
  {
    hide TouchedAfter, RowsInv, Newest, Ordered;
  }

  // ----- the snapshot -----

  /** A row is untouched after a revision exactly when its own is not newer. */
  lemma UntouchedRow(rows: map<nat, Item>, log: seq<Change>, id: nat, revision: nat)
    requires RowsInv(rows, log) && id in rows
    ensures TouchedAfter(log, revision, id) <==> rows[id].revision > revision
  {
    var own := Change(rows[id].revision, id, Some(rows[id]));
    assert own in log;
  }

  lemma {:induction false} OverlaidAt(view: map<nat, Item>, items: seq<Item>, id: nat)
    ensures id in Overlaid(view, items) <==> id in view || exists x :: x in items && x.id == id
    ensures id in Overlaid(view, items) ==>
      var value := Overlaid(view, items)[id];
      (value in items && value.id == id) || (id in view && value == view[id] && forall x :: x in items ==> x.id != id)
  {
    if items != [] {
      var last, rest := items[|items| - 1], items[..|items| - 1];
      OverlaidAt(view, rest, id);
      assert items == rest + [last];
      assert last in items;
    }
  }

  lemma ListingAt(all: seq<Item>, rows: map<nat, Item>, revision: nat, cursor: Option<Key>, i: nat)
    requires IsListing(all, rows, revision, cursor) && i < |all|
    ensures var x := all[i];
      && x.id in rows && rows[x.id] == x && x.revision <= revision
      && (cursor.None? || Before(cursor.value, KeyOf(x))) && !Passed(cursor, KeyOf(x))
  {
    assert all[i] in all;
  }

  lemma PageReceived(c: Catalog, revision: nat, cursor: Option<Key>, view: map<nat, Item>, all: seq<Item>, n: nat)
    requires ReceivedInv(c, revision, cursor, view) && IsListing(all, c.rows, revision, cursor) && 0 < n <= |all|
    ensures ReceivedInv(c, revision, Some(KeyOf(all[n - 1])), Overlaid(view, all[..n]))
  {
    var view', last := Overlaid(view, all[..n]), KeyOf(all[n - 1]);
    ListingAt(all, c.rows, revision, cursor, n - 1);
    forall id | id in view'
      ensures view'[id].id == id && Passed(Some(last), KeyOf(view'[id]))
      ensures TouchedAfter(c.log, revision, id) || (id in c.rows && c.rows[id] == view'[id])
    {
      OverlaidAt(view, all[..n], id);
      hide Overlaid, TouchedAfter;
      if view'[id] in all[..n] && view'[id].id == id {
        var i :| 0 <= i < n && all[i] == view'[id];
        ListingAt(all, c.rows, revision, cursor, i);
      }
    }
  }

  /** Everything at or above the page's last item has been received. */
  lemma PageMissesNothing(c: Catalog, revision: nat, cursor: Option<Key>, view: map<nat, Item>, all: seq<Item>, n: nat)
    requires PassedInv(c.rows, revision, cursor, view) && IsListing(all, c.rows, revision, cursor) && 0 < n <= |all|
    requires forall id :: id in c.rows ==> c.rows[id].id == id
    ensures PassedInv(c.rows, revision, Some(KeyOf(all[n - 1])), Overlaid(view, all[..n]))
  {
    var view', last := Overlaid(view, all[..n]), KeyOf(all[n - 1]);
    forall id | id in c.rows && c.rows[id].revision <= revision && Passed(Some(last), KeyOf(c.rows[id]))
      ensures id in view' && view'[id] == c.rows[id]
    {
      var row := c.rows[id];
      OverlaidAt(view, all[..n], id);
      hide Overlaid;
      if !Passed(cursor, KeyOf(row)) {
        RowIsListed(c, revision, cursor, all, id);
        var i :| 0 <= i < |all| && all[i] == row;
        assert i < n;
        assert all[..n][i] == row;
      }
      if id in view' && view'[id] in all[..n] {
        var i :| 0 <= i < n && all[i] == view'[id];
        ListingAt(all, c.rows, revision, cursor, i);
      }
    }
  }

  lemma RowIsListed(c: Catalog, revision: nat, cursor: Option<Key>, all: seq<Item>, id: nat)
    requires IsListing(all, c.rows, revision, cursor) && id in c.rows && c.rows[id].id == id
    requires c.rows[id].revision <= revision && !Passed(cursor, KeyOf(c.rows[id]))
    ensures c.rows[id] in all
  {
  }

  /** After the last page, the view agrees with the catalog wherever nothing
    * changed since the pinned revision. */
  lemma SnapshotCompletes(c: Catalog, revision: nat, cursor: Option<Key>, view: map<nat, Item>)
    requires RowsInv(c.rows, c.log) && ReceivedInv(c, revision, cursor, view) && PassedInv(c.rows, revision, cursor, view)
    requires IsListing([], c.rows, revision, cursor) && revision <= c.sequence
    requires forall id :: id in c.rows ==> c.rows[id].id == id
    ensures FollowingInv(c, revision, view)
  {
    forall id | !TouchedAfter(c.log, revision, id) ensures SameAt(view, c.rows, id) {
      if id in c.rows {
        UntouchedRow(c.rows, c.log, id, revision);
        if !Passed(cursor, KeyOf(c.rows[id])) {
          RowIsListed(c, revision, cursor, [], id);
        }
      }
    }
  }

  lemma NothingBelowTheLast(all: seq<Item>, rows: map<nat, Item>, revision: nat, cursor: Option<Key>)
    requires IsListing(all, rows, revision, cursor) && all != []
    ensures IsListing([], rows, revision, Some(KeyOf(all[|all| - 1])))
  {
    var last := KeyOf(all[|all| - 1]);
    ListingAt(all, rows, revision, cursor, |all| - 1);
    forall x | x in all ensures !Before(last, KeyOf(x)) {
      var i :| 0 <= i < |all| && all[i] == x;
      assert i < |all| - 1 ==> Before(KeyOf(x), last);
    }
  }

  lemma RowsAreNamed(c: Catalog)
    requires CatalogInv(c)
    ensures forall id :: id in c.rows ==> c.rows[id].id == id
  {
    hide Ordered, TouchedAfter, Newest;
  }

  /** A page never lists a conversation again. */
  lemma PageIsNew(c: Catalog, revision: nat, cursor: Option<Key>, client: Client, all: seq<Item>, n: nat)
    requires ListedInv(client) && !client.phase.Following?
    requires RowsInv(c.rows, c.log) && ReceivedInv(c, revision, cursor, client.view)
    requires IsListing(all, c.rows, revision, cursor) && n <= |all|
    ensures ListedOnce(client.listed + all[..n])
    ensures forall x, y :: x in client.listed && y in all[..n] ==> x.id != y.id
  {
    forall x, y | x in client.listed && y in all[..n] ensures x.id != y.id {
      var i :| 0 <= i < n && all[i] == y;
      ListingAt(all, c.rows, revision, cursor, i);
      UntouchedRow(c.rows, c.log, y.id, revision);
    }
    forall i, j | 0 <= i < j < n ensures all[i].id != all[j].id {
      ListingAt(all, c.rows, revision, cursor, i);
      ListingAt(all, c.rows, revision, cursor, j);
    }
    hide IsListing, ReceivedInv, RowsInv;
    var listed' := client.listed + all[..n];
    forall i, j | 0 <= i < j < |listed'| ensures listed'[i].id != listed'[j].id {
      if i < |client.listed| <= j {
        assert listed'[i] in client.listed && all[..n][j - |client.listed|] in all[..n];
      }
    }
  }

  lemma PageIsInView(client: Client, page: seq<Item>)
    requires forall x :: x in client.listed ==> x.id in client.view && client.view[x.id] == x
    requires ListedOnce(client.listed + page)
    ensures var view' := Overlaid(client.view, page);
      forall x :: x in client.listed + page ==> x.id in view' && view'[x.id] == x
  {
    var view', listed' := Overlaid(client.view, page), client.listed + page;
    forall x | x in listed' ensures x.id in view' && view'[x.id] == x {
      OverlaidAt(client.view, page, x.id);
      hide Overlaid;
      var i :| 0 <= i < |listed'| && listed'[i] == x;
      if view'[x.id] in page {
        var j :| 0 <= j < |page| && page[j] == view'[x.id];
        assert listed'[|client.listed| + j].id == x.id;
      }
    }
  }

  // ----- the change feed -----

  lemma PrunedIsBelowMinimum(log: seq<Change>, i: nat)
    requires Ordered(log) && i + MAXIMUM_CHANGES < |log|
    ensures log[i].sequence < Minimum(Newest(log))
  {
  }

  lemma RecentIsRetained(log: seq<Change>, i: nat)
    requires i < |log| <= i + MAXIMUM_CHANGES
    ensures log[i] in Newest(log)
  {
    assert log[i] == Newest(log)[i - (|log| - |Newest(log)|)];
  }

  /** The reset test never misses a pruned change. */
  lemma ResetNeverMisses(c: Catalog, ack: nat)
    requires CatalogInv(c) && !ResetRequired(c.changes, ack)
    ensures forall x :: x in c.log && x.sequence > ack ==> x in c.changes
  {
    hide Newest, Ordered, RowsInv;
    forall x | x in c.log && x.sequence > ack ensures x in c.changes {
      var i :| 0 <= i < |c.log| && c.log[i] == x;
      if i + MAXIMUM_CHANGES < |c.log| {
        PrunedIsBelowMinimum(c.log, i);
      } else {
        RecentIsRetained(c.log, i);
      }
    }
  }

  lemma {:induction false} AfterMembers(changes: seq<Change>, after: nat, x: Change)
    ensures x in After(changes, after) <==> x in changes && x.sequence > after
  {
    if changes != [] {
      AfterMembers(changes[1..], after, x);
      assert changes == [changes[0]] + changes[1..];
    }
  }

  lemma {:induction false} AfterOrdered(changes: seq<Change>, after: nat)
    requires Ordered(changes)
    ensures Ordered(After(changes, after))
  {
    if changes != [] {
      var rest := After(changes[1..], after);
      AfterOrdered(changes[1..], after);
      forall i | 0 <= i < |rest| ensures rest[i] in changes[1..] {
        AfterMembers(changes[1..], after, rest[i]);
      }
    }
  }

  /** The page holds every change between the acknowledgement and its end. */
  ghost predicate Dense(page: seq<Change>, log: seq<Change>, ack: nat) {
    && Ordered(page)
    && (forall x :: x in page ==> x in log && x.sequence > ack)
    && (page != [] ==> forall x :: x in log && ack < x.sequence <= page[|page| - 1].sequence ==> x in page)
  }

  lemma DensePopped(page: seq<Change>, log: seq<Change>, ack: nat)
    requires page != [] && Dense(page, log, ack)
    ensures Dense(page[1..], log, page[0].sequence)
    ensures page[0] in log && page[0].sequence > ack
    ensures forall x :: x in log && ack < x.sequence <= page[0].sequence ==> x == page[0]
  {
    var first, rest := page[0], page[1..];
    assert page == [first] + rest;
    assert first in page;
    forall x | x in rest ensures x in page && x.sequence > first.sequence {
      var i :| 0 <= i < |rest| && rest[i] == x;
      assert page[i + 1] == x;
    }
    if rest != [] {
      assert rest[|rest| - 1] == page[|page| - 1];
    }
    forall x | x in log && ack < x.sequence <= first.sequence ensures x == first {
      assert page[|page| - 1].sequence >= first.sequence;
    }
  }

  /** Applying the next change makes one more conversation current, or leaves a
    * later change to do so. */
  lemma ChangeKeeps(c: Catalog, ack: nat, view: map<nat, Item>, x: Change)
    requires CatalogInv(c) && FollowingInv(c, ack, view)
    requires x in c.log && x.sequence > ack
    requires forall y :: y in c.log && ack < y.sequence <= x.sequence ==> y == x
    ensures FollowingInv(c, x.sequence, AppliedTo(view, x))
  {
    var view' := AppliedTo(view, x);
    forall id | !TouchedAfter(c.log, x.sequence, id) ensures SameAt(view', c.rows, id) {
      if id != x.id {
        assert !TouchedAfter(c.log, ack, id);
      }
    }
  }

  lemma {:induction false} FeedKeeps(c: Catalog, ack: nat, view: map<nat, Item>, page: seq<Change>)
    requires CatalogInv(c) && FollowingInv(c, ack, view) && Dense(page, c.log, ack)
    ensures FollowingInv(c, if page == [] then ack else page[|page| - 1].sequence, Applied(view, page))
    decreases |page|
  {
    if page != [] {
      DensePopped(page, c.log, ack);
      ChangeKeeps(c, ack, view, page[0]);
      FeedKeeps(c, page[0].sequence, AppliedTo(view, page[0]), page[1..]);
    }
  }

  lemma PageIsDense(c: Catalog, ack: nat, n: nat)
    requires CatalogInv(c) && !ResetRequired(c.changes, ack) && n <= |After(c.changes, ack)|
    ensures Dense(After(c.changes, ack)[..n], c.log, ack)
  {
    var pending := After(c.changes, ack);
    ResetNeverMisses(c, ack);
    NewestIsPart(c.log);
    AfterOrdered(c.changes, ack);
    forall x ensures x in pending <==> x in c.changes && x.sequence > ack {
      AfterMembers(c.changes, ack, x);
    }
    hide After, Newest, LogInv, RowsInv, ResetRequired;
    PrefixIsDense(pending, c.log, ack, n);
  }

  lemma PrefixIsDense(pending: seq<Change>, log: seq<Change>, ack: nat, n: nat)
    requires Ordered(pending) && n <= |pending|
    requires forall x :: x in pending <==> x in log && x.sequence > ack
    ensures Dense(pending[..n], log, ack)
  {
    var page := pending[..n];
    assert forall x :: x in page ==> x in pending;
    if n > 0 {
      forall x | x in log && ack < x.sequence <= page[n - 1].sequence ensures x in page {
        var i :| 0 <= i < |pending| && pending[i] == x;
        assert i < n;
        assert page[i] == x;
      }
    }
  }

  lemma NewestIsPart(log: seq<Change>)
    requires Ordered(log)
    ensures Ordered(Newest(log)) && (forall x :: x in Newest(log) ==> x in log)
  {
  }

  // ----- every run -----

  lemma SnapshotPhase(c: Catalog, revision: nat, cursor: Option<Key>, view: map<nat, Item>, all: seq<Item>, n: nat)
    requires CatalogInv(c) && revision <= c.sequence
    requires ReceivedInv(c, revision, cursor, view) && PassedInv(c.rows, revision, cursor, view)
    requires IsListing(all, c.rows, revision, cursor) && n <= |all| && (all != [] ==> n > 0)
    ensures n == |all| ==> FollowingInv(c, revision, Overlaid(view, all[..n]))
    ensures n < |all| ==> ReceivedInv(c, revision, Some(KeyOf(all[n - 1])), Overlaid(view, all[..n]))
    ensures n < |all| ==> PassedInv(c.rows, revision, Some(KeyOf(all[n - 1])), Overlaid(view, all[..n]))
  {
    RowsAreNamed(c);
    hide LogInv, RowsInv, Newest, ReceivedInv, PassedInv, IsListing, Overlaid, FollowingInv;
    if n > 0 {
      PageReceived(c, revision, cursor, view, all, n);
      PageMissesNothing(c, revision, cursor, view, all, n);
      if n == |all| {
        NothingBelowTheLast(all, c.rows, revision, cursor);
        SnapshotCompletes(c, revision, Some(KeyOf(all[n - 1])), Overlaid(view, all[..n]));
      }
    } else {
      SnapshotCompletes(c, revision, cursor, view);
      NoItems(view);
    }
  }

  lemma SnapshotKeepsListed(w: World, w': World, all: seq<Item>, n: nat)
    requires WorldInv(w) && Next(w, w', ReadSnapshot(all, n))
    ensures ListedInv(w'.client)
  {
    var c, client := w.catalog, w.client;
    var revision, cursor := SnapshotRevision(w), SnapshotCursor(client);
    assert ReceivedInv(c, revision, cursor, client.view);
    hide LogInv, Newest, ReceivedInv, PassedInv, IsListing, Overlaid, FollowingInv, Latest;
    PageIsNew(c, revision, cursor, client, all, n);
    PageIsInView(client, all[..n]);
  }

  lemma SnapshotKeeps(w: World, w': World, all: seq<Item>, n: nat)
    requires WorldInv(w) && Next(w, w', ReadSnapshot(all, n))
    ensures WorldInv(w')
  {
    var c, client := w.catalog, w.client;
    var revision, cursor := SnapshotRevision(w), SnapshotCursor(client);
    assert client.phase.Fresh? ==> client == NEW_CLIENT;
    assert ReceivedInv(c, revision, cursor, client.view) && PassedInv(c.rows, revision, cursor, client.view);
    hide CatalogInv, ReceivedInv, PassedInv, IsListing, Overlaid, FollowingInv, ListedInv, Latest;
    SnapshotKeepsListed(w, w', all, n);
    LatestIsBounded(c);
    SnapshotPhase(c, revision, cursor, client.view, all, n);
  }

  lemma NoItems(view: map<nat, Item>)
    ensures Overlaid(view, []) == view
  {
  }

  lemma LatestIsBounded(c: Catalog)
    requires CatalogInv(c)
    ensures Latest(c.changes) <= c.sequence
  {
    NewestIsPart(c.log);
    if c.changes != [] {
      assert c.changes[|c.changes| - 1] in c.changes;
    }
  }

  lemma FeedReadKeeps(w: World, w': World, n: nat)
    requires WorldInv(w) && Next(w, w', ReadFeed(n))
    ensures WorldInv(w')
  {
    hide CatalogInv, FollowingInv, After, ResetRequired, Applied, Dense;
    var ack := w.client.phase.ack;
    if !ResetRequired(w.catalog.changes, ack) {
      PageIsDense(w.catalog, ack, n);
      FeedKeeps(w.catalog, ack, w.client.view, After(w.catalog.changes, ack)[..n]);
    }
  }

  lemma WriteKeeps(w: World, w': World, id: nat, updatedAt: int, summary: string)
    requires WorldInv(w) && Next(w, w', Write(id, updatedAt, summary))
    ensures WorldInv(w')
  {
    var sequence := w.catalog.sequence + 1;
    var change := Change(sequence, id, Some(Item(id, sequence, updatedAt, summary)));
    assert w'.catalog == Recorded(w.catalog, change) && w'.client == w.client;
    hide CatalogInv, PhaseInv, Recorded, Written, ListedInv;
    RecordedKeeps(w.catalog, change);
    RecordedKeepsClient(w.catalog, change, w.client);
  }

  lemma DeleteKeeps(w: World, w': World, ids: seq<nat>)
    requires WorldInv(w) && Next(w, w', Delete(ids))
    ensures WorldInv(w')
  {
    hide CatalogInv, PhaseInv, Removed, ListedInv;
    RemovedKeeps(w.catalog, ids, w.client);
  }

  lemma NextKeepsInv(w: World, w': World, a: Action)
    requires WorldInv(w) && Next(w, w', a)
    ensures WorldInv(w')
  {
    match a
    case Write(id, updatedAt, summary) => hide *; WriteKeeps(w, w', id, updatedAt, summary);
    case Delete(ids) => hide *; DeleteKeeps(w, w', ids);
    case Elsewhere => hide CatalogInv, PhaseInv, ListedInv; ElsewhereKeeps(w.catalog, w.client);
    case ReadSnapshot(all, n) => hide *; SnapshotKeeps(w, w', all, n);
    case ReadFeed(n) => hide *; FeedReadKeeps(w, w', n);
  }

  lemma {:induction false} BehaviorKeepsInv(tr: seq<World>, actions: seq<Action>, i: nat)
    requires Behavior(tr, actions) && i < |tr|
    ensures WorldInv(tr[i])
  {
    if i > 0 {
      BehaviorKeepsInv(tr, actions, i - 1);
      NextKeepsInv(tr[i - 1], tr[i], actions[i - 1]);
    }
  }

  /** In every run, the pages of one snapshot list each conversation at most
    * once, whatever is written between them. */
  lemma SnapshotListsOnce(tr: seq<World>, actions: seq<Action>, i: nat)
    requires Behavior(tr, actions) && i < |tr|
    ensures var listed := tr[i].client.listed;
      forall j, k :: 0 <= j < k < |listed| ==> listed[j].id != listed[k].id
  {
    BehaviorKeepsInv(tr, actions, i);
  }

  /** What the last operation on a conversation among the first n left of it. */
  function LastWritten(actions: seq<Action>, n: nat, id: nat): Option<(int, string)>
    requires n <= |actions|
  {
    if n == 0 then None
    else
      match actions[n - 1]
      case Write(written, updatedAt, summary) =>
        if written == id then Some((updatedAt, summary)) else LastWritten(actions, n - 1, id)
      case Delete(ids) => if id in ids then None else LastWritten(actions, n - 1, id)
      case _ => LastWritten(actions, n - 1, id)
  }

  /** In every run a conversation is in the catalog exactly when the last operation
    * on it was a write, and its row is what that write gave. */
  lemma {:induction false} RowsShowLastWrites(tr: seq<World>, actions: seq<Action>, n: nat, id: nat)
    requires Behavior(tr, actions) && n < |tr|
    ensures var rows, last := tr[n].catalog.rows, LastWritten(actions, n, id);
      && (id in rows <==> last.Some?)
      && (id in rows ==> rows[id].id == id && (rows[id].updatedAt, rows[id].summary) == last.value)
  {
    if n > 0 {
      RowsShowLastWrites(tr, actions, n - 1, id);
      var w, w', a := tr[n - 1], tr[n - 1 + 1], actions[n - 1];
      assert Next(w, w', a);
      match a
      case Write(written, updatedAt, summary) =>
        hide *;
        WriteStep(w, w', written, updatedAt, summary);
        LastStep(actions, n, id);
      case Delete(ids) =>
        hide *;
        DeleteStep(w, w', ids);
        LastStep(actions, n, id);
      case _ => hide IsListing, AfterSnapshot, AfterFeed, ResetRequired, After;
    }
  }

  lemma LastStep(actions: seq<Action>, n: nat, id: nat)
    requires 0 < n <= |actions|
    ensures LastWritten(actions, n, id) ==
      match actions[n - 1]
      case Write(written, updatedAt, summary) =>
        if written == id then Some((updatedAt, summary)) else LastWritten(actions, n - 1, id)
      case Delete(ids) => if id in ids then None else LastWritten(actions, n - 1, id)
      case _ => LastWritten(actions, n - 1, id)
  {
  }

  lemma WriteStep(w: World, w': World, id: nat, updatedAt: int, summary: string)
    requires Next(w, w', Write(id, updatedAt, summary))
    ensures id in w'.catalog.rows && w'.catalog.rows[id] == Item(id, w.catalog.sequence + 1, updatedAt, summary)
    ensures forall k :: k != id ==>
      && (k in w'.catalog.rows <==> k in w.catalog.rows)
      && (k in w.catalog.rows ==> w'.catalog.rows[k] == w.catalog.rows[k])
  {
    WriteIsStored(w.catalog, id, updatedAt, summary);
    hide Written;
  }

  lemma DeleteStep(w: World, w': World, ids: seq<nat>)
    requires Next(w, w', Delete(ids))
    ensures forall k ::
      && (k in w'.catalog.rows <==> k in w.catalog.rows && k !in ids)
      && (k in w'.catalog.rows ==> w'.catalog.rows[k] == w.catalog.rows[k])
  {
    RemovedRows(w.catalog, ids);
    hide Removed;
  }

  /** In every run, a client that has no change left to read, and is not told to
    * reset, holds exactly the current catalog. */
  lemma OverlaidSnapshotIsCatalog(tr: seq<World>, actions: seq<Action>, i: nat)
    requires Behavior(tr, actions) && i < |tr| && tr[i].client.phase.Following?
    requires !ResetRequired(tr[i].catalog.changes, tr[i].client.phase.ack)
    requires After(tr[i].catalog.changes, tr[i].client.phase.ack) == []
    ensures tr[i].client.view == tr[i].catalog.rows
  {
    BehaviorKeepsInv(tr, actions, i);
    hide CatalogInv, After, ResetRequired, Behavior, ListedInv;
    CaughtUpIsCatalog(tr[i].catalog, tr[i].client.phase.ack, tr[i].client.view);
  }

  lemma CaughtUpIsCatalog(c: Catalog, ack: nat, view: map<nat, Item>)
    requires CatalogInv(c) && FollowingInv(c, ack, view)
    requires !ResetRequired(c.changes, ack) && After(c.changes, ack) == []
    ensures view == c.rows
  {
    ResetNeverMisses(c, ack);
    forall x | x in c.log ensures x.sequence <= ack {
      AfterMembers(c.changes, ack, x);
    }
    hide CatalogInv, After, ResetRequired;
    forall id ensures id in view <==> id in c.rows
              ensures id in view ==> view[id] == c.rows[id]
    {
      assert !TouchedAfter(c.log, ack, id);
      assert SameAt(view, c.rows, id);
    }
  }

  /** Some change after the acknowledgement is no longer there to read. */
  ghost predicate Missed(c: Catalog, ack: nat) {
    exists x :: x in c.log && x.sequence > ack && x !in c.changes
  }

  /** The newest pruned change comes after the acknowledgement. */
  predicate PrunedPast(log: seq<Change>, ack: nat) {
    |log| > MAXIMUM_CHANGES && log[|log| - MAXIMUM_CHANGES - 1].sequence > ack
  }

  /** A change was missed exactly when the newest pruned one was. */
  lemma MissedIff(c: Catalog, ack: nat)
    requires CatalogInv(c)
    ensures Missed(c, ack) <==> PrunedPast(c.log, ack)
  {
    hide RowsInv;
    var last := |c.log| - MAXIMUM_CHANGES - 1;
    if PrunedPast(c.log, ack) {
      assert c.log[last] in c.log;
      PrunedIsGone(c.log, last);
    }
    if Missed(c, ack) {
      var x :| x in c.log && x.sequence > ack && x !in c.changes;
      forall j: nat | j < |c.log| <= j + MAXIMUM_CHANGES ensures c.log[j] in c.changes {
        RecentIsRetained(c.log, j);
      }
      var i :| 0 <= i < |c.log| && c.log[i] == x;
      assert i < last ==> c.log[i].sequence < c.log[last].sequence;
    }
  }

  lemma PrunedIsGone(log: seq<Change>, i: nat)
    requires Ordered(log) && i + MAXIMUM_CHANGES < |log|
    ensures log[i] !in Newest(log)
  {
    var newest, cut := Newest(log), |log| - MAXIMUM_CHANGES;
    forall k | 0 <= k < |newest| ensures newest[k] != log[i] {
      assert newest[k] == log[cut + k] && log[i].sequence < log[cut + k].sequence;
    }
  }

  /** The reset test fires for a client that missed nothing exactly when the
    * sequences between its acknowledgement and the oldest retained change exist
    * and all went to other projects: no change of this project lies there. */
  lemma ResetIsSpuriousIff(c: Catalog, ack: nat)
    requires CatalogInv(c)
    ensures ResetRequired(c.changes, ack) && !Missed(c, ack) <==>
      c.changes != [] && ack + 1 < c.changes[0].sequence && !PrunedPast(c.log, ack)
    ensures ResetRequired(c.changes, ack) && !Missed(c, ack) <==>
      && c.changes != [] && ack + 1 < c.changes[0].sequence
      && forall x :: x in c.log ==> x.sequence <= ack || x.sequence >= c.changes[0].sequence
    ensures !ResetRequired(c.changes, ack) ==> !Missed(c, ack)
  {
    MissedIff(c, ack);
    if !ResetRequired(c.changes, ack) {
      ResetNeverMisses(c, ack);
    }
    if PrunedPast(c.log, ack) {
      var last := |c.log| - MAXIMUM_CHANGES - 1;
      assert c.log[last] in c.log && c.changes[0] == c.log[last + 1];
    }
    hide Newest, RowsInv;
    OldestIsFirst(c.log);
  }

  lemma OldestIsFirst(log: seq<Change>)
    requires Ordered(log)
    ensures Newest(log) != [] ==> forall x :: x in Newest(log) ==> x.sequence >= Newest(log)[0].sequence
  {
    forall x | x in Newest(log) ensures x.sequence >= Newest(log)[0].sequence {
      var cut := |log| - |Newest(log)|;
      var k :| 0 <= k < |Newest(log)| && Newest(log)[k] == x;
      assert x == log[cut + k] && Newest(log)[0] == log[cut];
    }
  }

  /** That happens because sequences are shared with other projects: a client that found an empty project is reset by
    * its first change when another project wrote in between. */
  lemma ResetCanBeSpurious() returns (tr: seq<World>, actions: seq<Action>)
    ensures Behavior(tr, actions)
    ensures var w := tr[|tr| - 1];
      && w.client.phase == Following(0) && ResetRequired(w.catalog.changes, 0)
      && w.catalog.changes == w.catalog.log
  {
    var w0 := World(EMPTY, NEW_CLIENT);
    var w1 := w0.(client := Client(Following(0), [], map[]));
    var w2 := w1.(catalog := w1.catalog.(sequence := 1));
    var w3 := w2.(catalog := Written(w2.catalog, 7, 100, "first"));
    tr, actions := [w0, w1, w2, w3], [ReadSnapshot([], 0), Elsewhere, Write(7, 100, "first")];
    assert IsListing([], w0.catalog.rows, 0, None);
    assert Next(w0, w1, actions[0]);
    assert w3.catalog.log == [Change(2, 7, Some(Item(7, 2, 100, "first")))];
  }
}
