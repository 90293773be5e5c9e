/** Reading a conversation's messages backwards: pages of the newest rows before
  * a cursor, cut again to a byte budget, and followed until there are no more.
  */
module MessagePaging {
  import opened Wrappers

  const MAXIMUM_PAGE: nat := 200

  datatype Row = Row(sequence: nat, body: string)

  /** `next` is the sequence to read before next time; 0 ends the walk. */
  datatype Page = Page(items: seq<Row>, next: nat)

  ghost predicate Ascending(rows: seq<Row>) {
    && (forall i :: 0 <= i < |rows| ==> rows[i].sequence > 0)
    && (forall i, j :: 0 <= i < j < |rows| ==> rows[i].sequence < rows[j].sequence)
  }

  /** How many rows lie before a sequence. */
  function CountBelow(rows: seq<Row>, before: nat): (n: nat)
    ensures n <= |rows|
  {
    if rows == [] then 0
    else CountBelow(rows[..|rows| - 1], before) + if rows[|rows| - 1].sequence < before then 1 else 0
  }

  function Last(rows: seq<Row>): nat {
    if rows == [] then 0 else rows[|rows| - 1].sequence
  }

  lemma {:induction false} BelowIsPrefix(rows: seq<Row>, before: nat)
    requires Ascending(rows)
    ensures forall i :: 0 <= i < |rows| ==> (i < CountBelow(rows, before) <==> rows[i].sequence < before)
  {
    if rows != [] {
      var n := |rows| - 1;
      BelowIsPrefix(rows[..n], before);
      assert forall i :: 0 <= i < n ==> rows[..n][i] == rows[i];
      if rows[n].sequence < before && n > 0 {
        assert rows[..n][n - 1].sequence < before;
      }
    }
  }

  /** Where the cursor stands: no cursor, and one past the end, mean the end. */
  function Upper(rows: seq<Row>, before: nat): nat {
    if before == 0 || before > Last(rows) + 1 then |rows| else CountBelow(rows, before)
  }

  /** The newest `limit` rows before the cursor, oldest first. */
  method ListMessages(rows: seq<Row>, before: nat, limit: nat) returns (r: Option<Page>)
    requires Ascending(rows)
    ensures r.Some? <==> 1 <= limit <= MAXIMUM_PAGE
    ensures r.Some? ==>
      var upper := Upper(rows, before);
      var lower := if upper > limit then upper - limit else 0;
      r.value.items == rows[lower..upper] && r.value.next == if lower > 0 then rows[lower].sequence else 0
  {
    if limit < 1 || limit > MAXIMUM_PAGE {
      return None;
    }
    var bound := if before == 0 || before > Last(rows) + 1 then Last(rows) + 1 else before;
    BelowIsPrefix(rows, bound);
    WholeIsBelow(rows);
    var newestFirst: seq<Row> := [];
    var index: nat := CountBelow(rows, bound);
    ghost var upper: nat := index;
    assert upper == Upper(rows, before);
    hide Ascending, CountBelow, Upper, Last;
    while index > 0 && |newestFirst| < limit + 1
      invariant index <= upper <= |rows| && |newestFirst| == upper - index && |newestFirst| <= limit + 1
      invariant forall i :: 0 <= i < |newestFirst| ==> newestFirst[i] == rows[upper - 1 - i]
    {
      index := index - 1;
      newestFirst := newestFirst + [rows[index]];
    }
    var next := 0;
    if |newestFirst| > limit {
      newestFirst := newestFirst[..limit];
      next := newestFirst[|newestFirst| - 1].sequence;
    }
    OldestFirst(rows, upper, newestFirst);
    r := Some(Page(Reversed(newestFirst), next));
  }

  function Reversed(rows: seq<Row>): seq<Row> {
    seq(|rows|, i requires 0 <= i < |rows| => rows[|rows| - 1 - i])
  }

  lemma OldestFirst(rows: seq<Row>, upper: nat, newestFirst: seq<Row>)
    requires |newestFirst| <= upper <= |rows|
    requires forall i :: 0 <= i < |newestFirst| ==> newestFirst[i] == rows[upper - 1 - i]
    ensures Reversed(newestFirst) == rows[upper - |newestFirst|..upper]
  {
  }

  lemma WholeIsBelow(rows: seq<Row>)
    requires Ascending(rows)
    ensures CountBelow(rows, Last(rows) + 1) == |rows|
  {
    BelowIsPrefix(rows, Last(rows) + 1);
    if rows != [] {
      assert rows[|rows| - 1].sequence < Last(rows) + 1;
    }
  }

  /** The page that keeps only the items from k on. */
  function Suffix(page: Page, k: nat): Page
    requires k < |page.items|
  {
    Page(page.items[k..], if k > 0 then page.items[k].sequence else page.next)
  }

  /** The longest suffix that fits together with every shorter one; an empty page
    * must fit as it is. */
  method BoundPage(page: Page, fits: Page -> bool) returns (r: Option<Page>)
    ensures page.items == [] ==> r == if fits(page) then Some(page) else None
    ensures page.items != [] && r.None? ==> !fits(Suffix(page, |page.items| - 1))
    ensures page.items != [] && r.Some? ==>
      exists k :: 0 <= k < |page.items| && LongestFit(page, fits, k) && r.value == Suffix(page, k)
  {
    if |page.items| == 0 {
      return if fits(page) then Some(page) else None;
    }
    var selected: seq<Row>, next: nat := [], page.next;
    var index: nat := |page.items|;
    while index > 0
      invariant 0 <= index <= |page.items|
      invariant index == |page.items| ==> selected == []
      invariant index < |page.items| ==> Page(selected, next) == Suffix(page, index)
      invariant forall k :: index <= k < |page.items| ==> fits(Suffix(page, k))
    {
      var candidate := [page.items[index - 1]] + selected;
      var candidateNext := if index - 1 > 0 then page.items[index - 1].sequence else page.next;
      assert page.items[index - 1..] == [page.items[index - 1]] + page.items[index..];
      assert index == |page.items| ==> page.items[index..] == [];
      assert Page(candidate, candidateNext) == Suffix(page, index - 1);
      if !fits(Page(candidate, candidateNext)) {
        if |selected| == 0 {
          return None;
        }
        assert LongestFit(page, fits, index) by {
          assert Suffix(page, index - 1) == Page(candidate, candidateNext);
        }
        return Some(Page(selected, next));
      }
      selected, next := candidate, candidateNext;
      index := index - 1;
    }
    assert LongestFit(page, fits, 0);
    r := Some(Page(selected, next));
  }

  ghost predicate LongestFit(page: Page, fits: Page -> bool, k: nat)
    requires k < |page.items|
  {
    && (forall j :: k <= j < |page.items| ==> fits(Suffix(page, j)))
    && (k > 0 ==> !fits(Suffix(page, k - 1)))
  }

  /** The page of the rows lo..hi as any walk would send it. */
  function SliceAt(rows: seq<Row>, lo: nat, hi: nat): Page
    requires lo < hi <= |rows|
  {
    Page(rows[lo..hi], if lo > 0 then rows[lo].sequence else 0)
  }

  function SingleAt(rows: seq<Row>, i: nat): Page
    requires i < |rows|
  {
    Page([rows[i]], if i > 0 then rows[i].sequence else 0)
  }

  /** Each row fits a page of its own; of no rows the empty page fits. */
  ghost predicate EachFits(rows: seq<Row>, fits: Page -> bool) {
    if rows == [] then fits(Page([], 0)) else forall i :: 0 <= i < |rows| ==> fits(SingleAt(rows, i))
  }

  /** A row too large on its own is not made to fit by its neighbours. */
  ghost predicate NeighboursDoNotHelp(rows: seq<Row>, fits: Page -> bool) {
    forall lo, i, hi :: 0 <= lo <= i < hi <= |rows| && fits(SliceAt(rows, lo, hi)) ==> fits(SingleAt(rows, i))
  }

  /** The rows from `lower` up to the cursor, and a cursor that resumes there. */
  ghost predicate Resumes(rows: seq<Row>, upper: nat, page: Page) {
    && |page.items| <= upper <= |rows| && (upper > 0 ==> page.items != [])
    && var lower := upper - |page.items|;
       && page.items == rows[lower..upper] && (page.next == 0 <==> lower == 0)
       && (lower > 0 ==> page.next == rows[lower].sequence && Upper(rows, page.next) == lower)
  }

  ghost predicate FitFrom(rows: seq<Row>, fits: Page -> bool, upper: nat) {
    forall i :: upper <= i < |rows| ==> fits(SingleAt(rows, i))
  }

  /** One page further back. */
  lemma PageWalked(rows: seq<Row>, fits: Page -> bool, upper: nat, page: Page)
    requires Resumes(rows, upper, page) && fits(page)
    ensures |page.items| <= upper <= |rows| && (page.items == [] ==> upper == 0)
    ensures var lower := upper - |page.items|;
      && page.items + rows[upper..] == rows[lower..]
      && (NeighboursDoNotHelp(rows, fits) && FitFrom(rows, fits, upper) ==> FitFrom(rows, fits, lower))
      && (if page.next == 0 then lower == 0 else lower > 0 && Upper(rows, page.next) == lower)
      && (upper == 0 ==> page == Page([], 0))
  {
    var lower := upper - |page.items|;
    hide Upper;
    assert rows[lower..] == rows[lower..upper] + rows[upper..];
    if upper > 0 && NeighboursDoNotHelp(rows, fits) && FitFrom(rows, fits, upper) {
      assert page == SliceAt(rows, lower, upper);
      assert fits(SliceAt(rows, lower, upper));
    }
  }

  /** One page is refused exactly when its newest row does not fit alone. */
  method ReadPage(rows: seq<Row>, before: nat, limit: nat, fits: Page -> bool) returns (r: Option<Page>)
    requires Ascending(rows) && 1 <= limit <= MAXIMUM_PAGE
    ensures var upper := Upper(rows, before);
      r.Some? <==> if upper == 0 then fits(Page([], 0)) else fits(SingleAt(rows, upper - 1))
    ensures r.Some? ==> Resumes(rows, Upper(rows, before), r.value) && fits(r.value)
  {
    var page := ListMessages(rows, before, limit);
    r := BoundPage(page.value, fits);
    hide Ascending, LongestFit;
    if |page.value.items| > 0 {
      NewestAlone(rows, before, limit, page.value);
      if r.Some? {
        ghost var k :| 0 <= k < |page.value.items| && LongestFit(page.value, fits, k) && r.value == Suffix(page.value, k);
        CutResumes(rows, before, limit, page.value, k);
        AllFit(page.value, fits, k);
      }
    } else {
      NothingBelow(rows, before, limit, page.value);
    }
  }

  lemma AllFit(page: Page, fits: Page -> bool, k: nat)
    requires k < |page.items| && LongestFit(page, fits, k)
    ensures fits(Suffix(page, k)) && fits(Suffix(page, |page.items| - 1))
  {
  }

  lemma NewestAlone(rows: seq<Row>, before: nat, limit: nat, page: Page)
    requires limit >= 1 && page.items != []
    requires var upper := Upper(rows, before);
      var lower := if upper > limit then upper - limit else 0;
      page.items == rows[lower..upper] && page.next == if lower > 0 then rows[lower].sequence else 0
    ensures Upper(rows, before) > 0
    ensures Suffix(page, |page.items| - 1) == SingleAt(rows, Upper(rows, before) - 1)
  {
    var upper, n := Upper(rows, before), |page.items|;
    assert page.items[n - 1] == rows[upper - 1];
    assert page.items[n - 1..] == [rows[upper - 1]];
  }

  /** Following `next` from the end reads every row once and in order, whatever
    * the limit and the byte budget cut, and stops - or it is refused.  It is
    * never refused while each row fits alone; and if neighbours do not make a row
    * fit, it is read whole exactly then. */
  method ReadAll(rows: seq<Row>, limit: nat, fits: Page -> bool) returns (r: Option<seq<Row>>)
    requires Ascending(rows) && 1 <= limit <= MAXIMUM_PAGE
    ensures r.Some? ==> r.value == rows
    ensures EachFits(rows, fits) ==> r.Some?
    ensures NeighboursDoNotHelp(rows, fits) ==> (r.Some? <==> EachFits(rows, fits))
  {
    var read: seq<Row> := [];
    var before, more := 0, true;
    ghost var upper: nat := |rows|;
    assert Upper(rows, 0) == upper && rows[upper..] == [];
    hide Ascending, Upper, NeighboursDoNotHelp, Resumes, SingleAt;
    while more
      invariant upper <= |rows| && read == rows[upper..]
      invariant if more then Upper(rows, before) == upper && (upper == 0 ==> rows == []) else upper == 0
      invariant NeighboursDoNotHelp(rows, fits) ==> FitFrom(rows, fits, upper)
      invariant !more && rows == [] ==> fits(Page([], 0))
      decreases upper, more
    {
      var page := ReadPage(rows, before, limit, fits);
      if page.None? {
        return None;
      }
      PageWalked(rows, fits, upper, page.value);
      upper := upper - |page.value.items|;
      read := page.value.items + read;
      before, more := page.value.next, page.value.next != 0;
    }
    r := Some(read);
  }

  lemma NothingBelow(rows: seq<Row>, before: nat, limit: nat, page: Page)
    requires limit >= 1 && page.items == []
    requires var upper := Upper(rows, before);
      var lower := if upper > limit then upper - limit else 0;
      page.items == rows[lower..upper] && page.next == if lower > 0 then rows[lower].sequence else 0
    ensures Resumes(rows, Upper(rows, before), page)
  {
  }

  /** A cut page's cursor is the sequence of its first row, so the next page ends
    * exactly where this one begins. */
  lemma CutResumes(rows: seq<Row>, before: nat, limit: nat, page: Page, k: nat)
    requires Ascending(rows) && 1 <= limit && k < |page.items|
    requires var upper := Upper(rows, before);
      var lower := if upper > limit then upper - limit else 0;
      page.items == rows[lower..upper] && page.next == if lower > 0 then rows[lower].sequence else 0
    ensures Resumes(rows, Upper(rows, before), Suffix(page, k))
  {
    var upper, cut := Upper(rows, before), Suffix(page, k);
    var lower := upper - |cut.items|;
    assert cut.items == rows[lower..upper];
    if lower > 0 {
      assert cut.next == rows[lower].sequence;
      BelowIsPrefix(rows, cut.next);
      assert CountBelow(rows, cut.next) >= lower by {
        assert rows[lower - 1].sequence < cut.next;
      }
      assert CountBelow(rows, cut.next) <= lower;
    }
  }

  // ----- the byte budget of a response -----

  const RESPONSE_BYTES: nat := 49152
  const WIRE_FIELD_BYTES: nat := 16384

  /** The bytes one character takes inside a JSON string, escaped for HTML. */
  function EscapedBytes(c: char): nat {
    if c in {'<', '>', '&', '\U{2028}', '\U{2029}'} then 6
    else if c in {'"', '\\', '\n', '\r', '\t', '\U{08}', '\U{0C}'} then 2
    else if c < ' ' then 6
    else if c < '\U{80}' then 1
    else if c < '\U{800}' then 2
    else if c < '\U{10000}' then 3
    else 4
  }

  function EncodedText(body: string): nat {
    if body == "" then 0 else EscapedBytes(body[0]) + EncodedText(body[1..])
  }

  function EncodedRows(rows: seq<Row>): nat {
    if rows == [] then 0 else EncodedText(rows[0].body) + EncodedRows(rows[1..])
  }

  /** Everything but the rows' text takes `envelope` bytes. */
  function WireFits(envelope: nat): Page -> bool {
    (page: Page) => EncodedRows(page.items) + envelope <= RESPONSE_BYTES
  }

  lemma {:induction false} RowWithinRows(rows: seq<Row>, i: nat)
    requires i < |rows|
    ensures EncodedText(rows[i].body) <= EncodedRows(rows)
  {
    if i > 0 {
      RowWithinRows(rows[1..], i - 1);
    }
  }

  lemma SizesAddUp(rows: seq<Row>, envelope: nat)
    ensures NeighboursDoNotHelp(rows, WireFits(envelope))
  {
    forall lo: nat, i: nat, hi: nat | lo <= i < hi <= |rows| && WireFits(envelope)(SliceAt(rows, lo, hi))
      ensures WireFits(envelope)(SingleAt(rows, i))
    {
      RowWithinRows(rows[lo..hi], i - lo);
      assert [rows[i]][1..] == [];
      assert EncodedRows([rows[i]]) == EncodedText(rows[i].body);
    }
  }

  lemma {:induction false} MarkupSize(body: string)
    requires forall i :: 0 <= i < |body| ==> body[i] == '<'
    ensures EncodedText(body) == 6 * |body|
  {
    if body != "" {
      MarkupSize(body[1..]);
    }
  }

  /** One message of 16 KiB, all of it '<', within the bound its wire form keeps
    * but six times as long once escaped: every walk over the conversation is
    * refused, whatever surrounds the message. */
  lemma MarkupStopsTheWalk(older: seq<Row>, newer: seq<Row>, row: Row, envelope: nat)
    requires row.body == seq(WIRE_FIELD_BYTES, i => '<')
    ensures NeighboursDoNotHelp(older + [row] + newer, WireFits(envelope))
    ensures !EachFits(older + [row] + newer, WireFits(envelope))
  {
    var rows, i := older + [row] + newer, |older|;
    SizesAddUp(rows, envelope);
    MarkupSize(row.body);
    assert rows[i] == row && [row][1..] == [];
    assert EncodedRows([row]) == EncodedText(row.body) + EncodedRows([row][1..]);
    hide EncodedRows, EncodedText;
    assert !WireFits(envelope)(SingleAt(rows, i));
  }
}
