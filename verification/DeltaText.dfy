/** UTF-8 text on its way to and from the store: splitting and coalescing the
  * provider's chunks into durable deltas, and reading a stored body in chunks.
  * Validity is that of section 3 of RFC 3629.
  */
module DeltaText {
  import opened Wrappers

  const MAXIMUM_DELTA: nat := 8192
  const MAXIMUM_CHUNK: nat := 16384
  const FLUSH_INTERVAL: int := 80

  type byte = b: int | 0 <= b < 256

  // ----- validity -----

  predicate Continues(s: seq<byte>, from: nat, count: nat) {
    from + count <= |s| && forall i :: from <= i < from + count ==> 0x80 <= s[i] < 0xC0
  }

  /** The length of the code point that starts the text; 0 when none does. */
  function RuneLength(s: seq<byte>): (n: nat)
    ensures n <= 4 && n <= |s|
  {
    if s == [] then 0
    else if s[0] < 0x80 then 1
    else if 0xC2 <= s[0] < 0xE0 then if Continues(s, 1, 1) then 2 else 0
    else if 0xE0 <= s[0] < 0xF0 then
      if Continues(s, 1, 2) && (s[0] == 0xE0 ==> s[1] >= 0xA0) && (s[0] == 0xED ==> s[1] < 0xA0) then 3 else 0
    else if 0xF0 <= s[0] < 0xF5 then
      if Continues(s, 1, 3) && (s[0] == 0xF0 ==> s[1] >= 0x90) && (s[0] == 0xF4 ==> s[1] < 0x90) then 4 else 0
    else 0
  }

  predicate Valid(s: seq<byte>)
    decreases |s|
  {
    s == [] || (RuneLength(s) > 0 && Valid(s[RuneLength(s)..]))
  }

  function Max(a: nat, b: nat): nat {
    if a < b then b else a
  }

  /** The longest code point of a valid text. */
  function LongestRune(s: seq<byte>): nat
    decreases |s|
  {
    if s == [] || RuneLength(s) == 0 then 0 else Max(RuneLength(s), LongestRune(s[RuneLength(s)..]))
  }

  /** Only the code point's own bytes decide its length. */
  lemma RuneOfPrefix(s: seq<byte>, n: nat)
    requires n <= |s|
    ensures RuneLength(s[..n]) > 0 ==> RuneLength(s) == RuneLength(s[..n])
    ensures 0 < RuneLength(s) <= n ==> RuneLength(s[..n]) == RuneLength(s)
  {
    assert forall i :: 0 <= i < n ==> s[..n][i] == s[i];
  }

  lemma UnfoldRunes(s: seq<byte>)
    requires s != [] && Valid(s)
    ensures 0 < RuneLength(s) <= |s| && Valid(s[RuneLength(s)..])
    ensures LongestRune(s) == Max(RuneLength(s), LongestRune(s[RuneLength(s)..]))
  {
  }

  lemma SlicesAgree(s: seq<byte>, k: nat, n: nat)
    requires k <= n <= |s|
    ensures s[..n][k..] == s[k..][..n - k] && s[n..] == s[k..][n - k..]
  {
  }

  /** Cutting a valid text at a valid prefix leaves a valid rest. */
  lemma {:induction false} RestIsValid(s: seq<byte>, n: nat)
    requires Valid(s) && n <= |s| && Valid(s[..n])
    ensures Valid(s[n..])
    ensures LongestRune(s) == Max(LongestRune(s[..n]), LongestRune(s[n..]))
    decreases |s|
  {
    if n == 0 {
      assert s[0..] == s && s[..0] == [];
      assert LongestRune([]) == 0;
    } else {
      hide Valid, LongestRune, RuneLength;
      UnfoldRunes(s);
      UnfoldRunes(s[..n]);
      var k := RuneLength(s);
      RuneOfPrefix(s, n);
      SlicesAgree(s, k, n);
      RestIsValid(s[k..], n - k);
    }
  }

  lemma {:induction false} JoinIsValid(a: seq<byte>, b: seq<byte>)
    requires Valid(a) && Valid(b)
    ensures Valid(a + b)
    decreases |a|
  {
    if a == [] {
      assert a + b == b;
    } else {
      var k := RuneLength(a);
      assert (a + b)[..|a|] == a;
      RuneOfPrefix(a + b, |a|);
      assert (a + b)[k..] == a[k..] + b;
      JoinIsValid(a[k..], b);
    }
  }

  /** Every window of a valid text that is at least as wide as its next code point
    * has a non-empty valid prefix. */
  lemma FirstRuneIsValid(s: seq<byte>)
    requires Valid(s) && s != []
    ensures 0 < RuneLength(s) && Valid(s[..RuneLength(s)]) && RuneLength(s) <= LongestRune(s)
  {
    var k := RuneLength(s);
    RuneOfPrefix(s, k);
    assert s[..k][k..] == [];
  }

  /** No shorter prefix of a code point is valid. */
  lemma NoShorterPrefix(s: seq<byte>, n: nat)
    requires Valid(s) && 0 < n < RuneLength(s)
    ensures !Valid(s[..n])
  {
    RuneOfPrefix(s, n);
  }

  // ----- splitting -----

  function Flattened(pieces: seq<seq<byte>>): seq<byte> {
    if pieces == [] then [] else Flattened(pieces[..|pieces| - 1]) + pieces[|pieces| - 1]
  }

  ghost predicate GoodPieces(pieces: seq<seq<byte>>, maximumBytes: nat) {
    forall i :: 0 <= i < |pieces| ==> 0 < |pieces[i]| <= maximumBytes && Valid(pieces[i])
  }

  /** The largest valid prefix of the window, found by stepping back. */
  method ValidPrefix(value: seq<byte>, start: nat, limit: nat) returns (end: nat)
    requires start <= limit <= |value| && Valid(value[start..])
    ensures start <= end <= limit && Valid(value[start..end])
    ensures end == start && start < |value| ==> RuneLength(value[start..]) > limit - start
  {
    end := limit;
    while end > start && !Valid(value[start..end])
      invariant start <= end <= limit
      invariant forall k :: end < k <= limit ==> !Valid(value[start..k])
    {
      end := end - 1;
    }
    assert end == start ==> value[start..end] == [];
    if end == start && start < |value| {
      var rest := value[start..];
      FirstRuneIsValid(rest);
      assert rest[..RuneLength(rest)] == value[start..start + RuneLength(rest)];
    }
  }

  /** Splits a text into valid pieces of bounded size.  It refuses exactly the
    * empty text, an invalid one, and a bound below its longest code point. */
  method SplitUtf8(value: seq<byte>, maximumBytes: nat) returns (r: Option<seq<seq<byte>>>)
    ensures r.Some? <==> value != [] && Valid(value) && LongestRune(value) <= maximumBytes
    ensures r.Some? ==> Flattened(r.value) == value && r.value != [] && GoodPieces(r.value, maximumBytes)
  {
    if value == [] || maximumBytes < 1 || !Valid(value) {
      if value != [] && Valid(value) {
        FirstRuneIsValid(value);
      }
      return None;
    }
    if |value| <= maximumBytes {
      LongestIsInside(value);
      assert [value][..0] == [];
      return Some([value]);
    }
    var result: seq<seq<byte>>, start := [], 0;
    assert value[0..] == value && value[..0] == [];
    while start < |value|
      invariant start <= |value| && Valid(value[start..]) && Valid(value[..start])
      invariant Flattened(result) == value[..start] && GoodPieces(result, maximumBytes)
      invariant LongestRune(value) == Max(LongestRune(value[..start]), LongestRune(value[start..]))
      invariant LongestRune(value[..start]) <= maximumBytes
    {
      hide Valid, RuneLength, LongestRune, Flattened, GoodPieces;
      var limit := if start + maximumBytes < |value| then start + maximumBytes else |value|;
      var end := ValidPrefix(value, start, limit);
      FirstRuneIsValid(value[start..]);
      if end == start {
        return None;
      }
      SplitStep(value, start, end);
      PiecesGrow(result, value[start..end], maximumBytes);
      result := result + [value[start..end]];
      start := end;
    }
    assert value[..start] == value;
    assert result != [];
    r := Some(result);
  }

  lemma PiecesGrow(pieces: seq<seq<byte>>, piece: seq<byte>, maximumBytes: nat)
    requires GoodPieces(pieces, maximumBytes) && 0 < |piece| <= maximumBytes && Valid(piece)
    ensures Flattened(pieces + [piece]) == Flattened(pieces) + piece && GoodPieces(pieces + [piece], maximumBytes)
  {
    assert (pieces + [piece])[..|pieces|] == pieces;
  }

  lemma {:induction false} LongestIsInside(s: seq<byte>)
    ensures LongestRune(s) <= |s|
    decreases |s|
  {
    if s != [] && RuneLength(s) > 0 {
      LongestIsInside(s[RuneLength(s)..]);
    }
  }

  lemma SplitStep(value: seq<byte>, start: nat, end: nat)
    requires start < end <= |value| && Valid(value) && Valid(value[..start]) && Valid(value[start..end])
    ensures value[..end] == value[..start] + value[start..end]
    ensures Valid(value[..end]) && Valid(value[end..])
    ensures LongestRune(value) == Max(LongestRune(value[..end]), LongestRune(value[end..]))
    ensures LongestRune(value[..end]) <= Max(LongestRune(value[..start]), end - start)
  {
    assert value[..end] == value[..start] + value[start..end];
    JoinIsValid(value[..start], value[start..end]);
    RestIsValid(value, end);
    assert value[..end][..start] == value[..start] && value[..end][start..] == value[start..end];
    RestIsValid(value[..end], start);
    LongestIsInside(value[start..end]);
  }

  /** Four bytes are enough for any code point. */
  lemma {:induction false} RunesAreShort(s: seq<byte>)
    ensures LongestRune(s) <= 4
    decreases |s|
  {
    if s != [] && RuneLength(s) > 0 {
      RunesAreShort(s[RuneLength(s)..]);
    }
  }

  // ----- coalescing -----

  datatype Field = Text | Reasoning

  /** The bytes of a run of deltas, each with the field it belongs to. */
  function Tagged(field: Field, bytes: seq<byte>): seq<(Field, byte)> {
    seq(|bytes|, i requires 0 <= i < |bytes| => (field, bytes[i]))
  }

  function AllTagged(deltas: seq<(Field, seq<byte>)>): seq<(Field, byte)> {
    if deltas == [] then []
    else
      var last := deltas[|deltas| - 1];
      AllTagged(deltas[..|deltas| - 1]) + Tagged(last.0, last.1)
  }

  lemma TaggedJoins(field: Field, a: seq<byte>, b: seq<byte>)
    ensures Tagged(field, a + b) == Tagged(field, a) + Tagged(field, b)
  {
  }

  lemma NothingTagged(field: Field)
    ensures Tagged(field, []) == [] && Valid([])
  {
  }

  lemma AllTaggedGrows(deltas: seq<(Field, seq<byte>)>, delta: (Field, seq<byte>))
    ensures AllTagged(deltas + [delta]) == AllTagged(deltas) + Tagged(delta.0, delta.1)
  {
    assert (deltas + [delta])[..|deltas|] == deltas;
  }

  /** No two neighbours of one field would have fitted in one delta. */
  ghost predicate Tight(deltas: seq<(Field, seq<byte>)>) {
    forall k :: 0 < k < |deltas| && deltas[k - 1].0 == deltas[k].0 ==>
      |deltas[k - 1].1| + |deltas[k].1| > MAXIMUM_DELTA
  }

  ghost predicate TightSince(runs: seq<(Field, seq<byte>)>, open: bool, started: int, since: int) {
    && Tight(runs)
    && (open ==> runs != [] && started >= since)
    && (!open && runs != [] ==> |runs[|runs| - 1].1| >= MAXIMUM_DELTA)
  }

  ghost predicate PieceAdded(runs: seq<(Field, seq<byte>)>, open: bool, started: int, field: Field, piece: seq<byte>,
                             now: int, runs': seq<(Field, seq<byte>)>, open': bool, started': int) {
    && (open ==> runs != [])
    && var n := |runs| - 1;
       var starts :=
         !open || runs[n].0 != field || |runs[n].1| + |piece| > MAXIMUM_DELTA || now - started >= FLUSH_INTERVAL;
       && runs' == (if starts then runs + [(field, piece)] else runs[..n] + [(field, runs[n].1 + piece)])
       && (open' <==> |runs'[|runs'| - 1].1| < MAXIMUM_DELTA)
       && (open' ==> started' == if starts then now else started)
  }

  lemma PieceIsAdded(runs: seq<(Field, seq<byte>)>, open: bool, started: int, field: Field, piece: seq<byte>,
                     now: int, runs': seq<(Field, seq<byte>)>, open': bool, started': int, starts: bool)
    requires open ==> runs != []
    requires starts <==>
      !open || runs[|runs| - 1].0 != field || |runs[|runs| - 1].1| + |piece| > MAXIMUM_DELTA
      || now - started >= FLUSH_INTERVAL
    requires starts ==> runs' == runs + [(field, piece)]
    requires !starts ==> runs' == runs[..|runs| - 1] + [(field, runs[|runs| - 1].1 + piece)]
    requires open' <==> |runs'[|runs'| - 1].1| < MAXIMUM_DELTA
    requires open' ==> started' == if starts then now else started
    ensures PieceAdded(runs, open, started, field, piece, now, runs', open', started')
  {
  }

  lemma PieceKeepsTight(runs: seq<(Field, seq<byte>)>, open: bool, started: int, field: Field, piece: seq<byte>,
                        now: int, runs': seq<(Field, seq<byte>)>, open': bool, started': int, since: int)
    requires TightSince(runs, open, started, since) && since <= now < since + FLUSH_INTERVAL && piece != []
    requires PieceAdded(runs, open, started, field, piece, now, runs', open', started')
    ensures TightSince(runs', open', started', since)
  {
    hide Tight;
    if runs' == runs + [(field, piece)] {
      TightAppended(runs, (field, piece));
    } else {
      var n := |runs| - 1;
      assert runs == runs[..n] + [(field, runs[n].1)];
      TightExtended(runs[..n], field, runs[n].1, piece);
    }
  }

  lemma TightAppended(deltas: seq<(Field, seq<byte>)>, delta: (Field, seq<byte>))
    requires Tight(deltas)
    requires deltas != [] && deltas[|deltas| - 1].0 == delta.0 ==> |deltas[|deltas| - 1].1| + |delta.1| > MAXIMUM_DELTA
    ensures Tight(deltas + [delta])
  {
  }

  lemma TightExtended(deltas: seq<(Field, seq<byte>)>, field: Field, bytes: seq<byte>, more: seq<byte>)
    requires Tight(deltas + [(field, bytes)])
    ensures Tight(deltas) && Tight(deltas + [(field, bytes + more)])
  {
    var before, after := deltas + [(field, bytes)], deltas + [(field, bytes + more)];
    forall k | 0 < k < |deltas| && deltas[k - 1].0 == deltas[k].0
      ensures |deltas[k - 1].1| + |deltas[k].1| > MAXIMUM_DELTA
    {
      assert before[k] == deltas[k] && before[k - 1] == deltas[k - 1];
    }
    if deltas != [] {
      assert before[|deltas|] == (field, bytes) && before[|deltas| - 1] == deltas[|deltas| - 1];
    }
    TightAppended(deltas, (field, bytes + more));
  }

  /** Merges adjacent chunks of one field; `deltas` is what has been persisted. */
  class Coalescer {
    var pending: seq<byte>
    var pendingField: Option<Field>
    var startedAt: int
    var deltas: seq<(Field, seq<byte>)>

    ghost predicate IsValid()
      reads this
    {
      && (forall i :: 0 <= i < |deltas| ==> 0 < |deltas[i].1| <= MAXIMUM_DELTA && Valid(deltas[i].1))
      && |pending| < MAXIMUM_DELTA && Valid(pending)
      && (pendingField.None? <==> pending == [])
    }

    lemma DeltasAreValid()
      requires IsValid()
      ensures forall d :: d in deltas ==> 0 < |d.1| <= MAXIMUM_DELTA && Valid(d.1)
    {
    }

    /** Everything received so far, in order. */
    ghost function Contents(): seq<(Field, byte)>
      reads this
    {
      AllTagged(deltas) + if pendingField.Some? then Tagged(pendingField.value, pending) else []
    }

    /** The deltas there are and the one in the making. */
    ghost function Runs(): seq<(Field, seq<byte>)>
      reads this
    {
      deltas + if pendingField.Some? then [(pendingField.value, pending)] else []
    }

    /** Nothing has been flushed before it was full since the given time. */
    ghost predicate IsTight(since: int)
      reads this
    {
      TightSince(Runs(), pendingField.Some?, startedAt, since)
    }

    lemma RunsAreTight(since: int)
      requires IsTight(since)
      ensures Tight(Runs())
    {
    }

    constructor ()
      ensures IsValid() && Contents() == [] && deltas == [] && forall since :: IsTight(since)
    {
      pending, pendingField, startedAt, deltas := [], None, 0, [];
    }

    method Flush()
      requires IsValid() || (pendingField.Some? && 0 < |pending| <= MAXIMUM_DELTA && Valid(pending)
        && forall i :: 0 <= i < |deltas| ==> 0 < |deltas[i].1| <= MAXIMUM_DELTA && Valid(deltas[i].1))
      modifies this
      ensures IsValid() && pendingField.None?
      ensures Contents() == old(Contents()) && AllTagged(deltas) == old(Contents())
      ensures old(deltas) <= deltas && deltas == old(Runs())
    {
      hide Valid, Tagged, AllTagged;
      assert AllTagged(deltas) + [] == AllTagged(deltas);
      if pendingField.Some? && |pending| > 0 {
        AllTaggedGrows(deltas, (pendingField.value, pending));
        deltas := deltas + [(pendingField.value, pending)];
      }
      NothingTagged(Text);
      pending, pendingField, startedAt := [], None, 0;
      assert AllTagged(deltas) + [] == AllTagged(deltas);
    }

    /** One provider chunk; `clock` gives the time at each of its pieces. */
    method Append(field: Field, value: seq<byte>, clock: nat -> int, ghost since: int) returns (ok: bool)
      requires IsValid()
      modifies this
      ensures ok <==> value != [] && Valid(value)
      ensures IsValid() && old(deltas) <= deltas
      ensures Contents() == if ok then old(Contents()) + Tagged(field, value) else old(Contents())
      ensures ok && old(IsTight(since)) && (forall n :: since <= clock(n) < since + FLUSH_INTERVAL) ==> IsTight(since)
    {
      hide Valid, LongestRune, RuneLength, AllTagged, IsValid, TightSince, PieceAdded;
      NothingTagged(field);
      var pieces := SplitUtf8(value, MAXIMUM_DELTA);
      RunesAreShort(value);
      if pieces.None? {
        return false;
      }
      for index := 0 to |pieces.value|
        invariant IsValid() && old(deltas) <= deltas
        invariant Contents() == old(Contents()) + Tagged(field, Flattened(pieces.value[..index]))
        invariant old(IsTight(since)) && (forall n :: since <= clock(n) < since + FLUSH_INTERVAL) ==> IsTight(since)
      {
        var piece := pieces.value[index];
        hide Flattened, Tagged;
        FlattenedStep(pieces.value, index);
        TaggedJoins(field, Flattened(pieces.value[..index]), piece);
        ghost var runs, open, started := Runs(), pendingField.Some?, startedAt;
        AppendPiece(field, piece, clock(index));
        if old(IsTight(since)) && forall n :: since <= clock(n) < since + FLUSH_INTERVAL {
          PieceKeepsTight(runs, open, started, field, piece, clock(index), Runs(), pendingField.Some?, startedAt, since);
        }
      }
      assert pieces.value[..|pieces.value|] == pieces.value;
      ok := true;
    }

    /** A piece joins the delta in the making unless that has another field, is too
      * full or too old; a full one is persisted at once. */
    method AppendPiece(field: Field, piece: seq<byte>, now: int)
      requires IsValid() && 0 < |piece| <= MAXIMUM_DELTA && Valid(piece)
      modifies this
      ensures IsValid() && old(deltas) <= deltas
      ensures Contents() == old(Contents()) + Tagged(field, piece)
      ensures PieceAdded(old(Runs()), old(pendingField.Some?), old(startedAt), field, piece, now,
                         Runs(), pendingField.Some?, startedAt)
    {
      hide Valid, Tagged, AllTagged, PieceAdded;
      ghost var runs, open, started := Runs(), pendingField.Some?, startedAt;
      ghost var starts := pendingField.None? || pendingField.value != field || |pending| + |piece| > MAXIMUM_DELTA
                          || now - startedAt >= FLUSH_INTERVAL;
      if pendingField.Some?
         && (pendingField.value != field || |pending| + |piece| > MAXIMUM_DELTA || now - startedAt >= FLUSH_INTERVAL) {
        Flush();
      }
      if pendingField.None? {
        NothingTagged(field);
        pendingField, startedAt := Some(field), now;
      }
      assert [] + piece == piece;
      TaggedJoins(field, pending, piece);
      JoinIsValid(pending, piece);
      pending := pending + piece;
      ghost var runs' := Runs();
      if |pending| >= MAXIMUM_DELTA {
        Flush();
      }
      assert Runs() == runs' by { assert deltas + [] == deltas; }
      PieceIsAdded(runs, open, started, field, piece, now, runs', pendingField.Some?, startedAt, starts);
    }
  }

  /** No flush is demanded, and the stream takes less than one flush interval. */
  ghost predicate Unforced(flushAfter: nat -> bool, clock: (nat, nat) -> int, since: int) {
    (forall n :: !flushAfter(n)) && forall i, n :: since <= clock(i, n) < since + FLUSH_INTERVAL
  }

  /** A whole provider stream, flushed after any of its chunks as tools and
    * approvals demand and once at its end: what is persisted is exactly what was
    * received, byte for byte, in order and under its field, in valid deltas of
    * bounded size, no two of which would have fitted in one when nothing but
    * size and field forced a flush.  The stream fails exactly at an empty or
    * invalid chunk. */
  method StreamDeltas(chunks: seq<(Field, seq<byte>)>, flushAfter: nat -> bool, clock: (nat, nat) -> int)
      returns (r: Option<seq<(Field, seq<byte>)>>)
    ensures r.Some? <==> forall i :: 0 <= i < |chunks| ==> chunks[i].1 != [] && Valid(chunks[i].1)
    ensures r.Some? ==> AllTagged(r.value) == AllTagged(chunks)
    ensures r.Some? ==> forall d :: d in r.value ==> 0 < |d.1| <= MAXIMUM_DELTA && Valid(d.1)
    ensures r.Some? && (exists since :: Unforced(flushAfter, clock, since)) ==> Tight(r.value)
  {
    hide *;
    NoneTagged();
    ghost var quick := exists since :: Unforced(flushAfter, clock, since);
    ghost var since := 0;
    if quick {
      since :| Unforced(flushAfter, clock, since);
    }
    var coalescer := new Coalescer();
    assert chunks[..0] == [];
    for index := 0 to |chunks|
      invariant coalescer.IsValid() && fresh(coalescer)
      invariant coalescer.Contents() == AllTagged(chunks[..index])
      invariant forall i :: 0 <= i < index ==> chunks[i].1 != [] && Valid(chunks[i].1)
      invariant quick ==> coalescer.IsTight(since)
    {
      if quick {
        BriefMoments(flushAfter, clock, since, index);
      }
      var ok := coalescer.Append(chunks[index].0, chunks[index].1, (n: nat) => clock(index, n), since);
      if !ok {
        return None;
      }
      AllTaggedGrows(chunks[..index], chunks[index]);
      assert chunks[..index + 1] == chunks[..index] + [chunks[index]];
      if flushAfter(index) {
        coalescer.Flush();
      }
    }
    assert chunks[..|chunks|] == chunks;
    if quick {
      coalescer.RunsAreTight(since);
    }
    coalescer.Flush();
    coalescer.DeltasAreValid();
    r := Some(coalescer.deltas);
  }

  lemma BriefMoments(flushAfter: nat -> bool, clock: (nat, nat) -> int, since: int, index: nat)
    requires Unforced(flushAfter, clock, since)
    ensures !flushAfter(index) && forall n: nat :: since <= clock(index, n) < since + FLUSH_INTERVAL
  {
  }

  lemma NoneTagged()
    ensures AllTagged([]) == []
  {
  }

  lemma FlattenedStep(pieces: seq<seq<byte>>, index: nat)
    requires index < |pieces|
    ensures Flattened(pieces[..index + 1]) == Flattened(pieces[..index]) + pieces[index]
  {
    assert pieces[..index + 1][..index] == pieces[..index];
  }

  // ----- reading a stored body -----

  datatype Chunk = Chunk(content: seq<byte>, offset: nat, next: nat, total: nat, hasMore: bool)

  /** One chunk of a stored body; the query returns a window of raw bytes. */
  method ReadChunk(body: seq<byte>, offset: nat, maximumBytes: nat) returns (r: Option<Chunk>)
    ensures r.Some? ==> 1 <= maximumBytes <= MAXIMUM_CHUNK && offset <= |body|
    ensures r.Some? ==>
      var c := r.value;
      && c.offset == offset <= c.next <= |body| && c.next - offset <= maximumBytes
      && c.content == body[offset..c.next] && Valid(c.content)
      && c.total == |body| && (c.hasMore <==> c.next < |body|) && (c.hasMore ==> c.next > offset)
    ensures offset <= |body| && Valid(body[offset..]) && 1 <= maximumBytes <= MAXIMUM_CHUNK ==>
      (r.Some? <==> offset == |body| || RuneLength(body[offset..]) <= maximumBytes)
  {
    if maximumBytes < 1 || maximumBytes > MAXIMUM_CHUNK || offset > |body| {
      return None;
    }
    var window := body[offset..if offset + maximumBytes < |body| then offset + maximumBytes else |body|];
    var end := |window|;
    while end > 0 && !Valid(window[..end])
      invariant 0 <= end <= |window|
      invariant forall k :: end < k <= |window| ==> !Valid(window[..k])
    {
      end := end - 1;
    }
    assert end == 0 ==> window[..end] == [];
    ghost var rest := body[offset..];
    if Valid(rest) && offset < |body| {
      WindowHasRune(rest, |window|, end);
      assert window == rest[..|window|];
      assert window[..end] == rest[..end];
    }
    if end == 0 && offset < |body| {
      return None;
    }
    assert window[..end] == body[offset..offset + end];
    r := Some(Chunk(window[..end], offset, offset + end, |body|, offset + end < |body|));
  }

  /** A window of a valid rest has a non-empty valid prefix exactly when its first
    * code point fits. */
  lemma WindowHasRune(rest: seq<byte>, width: nat, end: nat)
    requires Valid(rest) && rest != [] && width <= |rest| && end <= width
    ensures Valid(rest[..end]) && end > 0 ==> RuneLength(rest) <= width
    ensures RuneLength(rest) <= width ==> Valid(rest[..width][..RuneLength(rest)]) && RuneLength(rest) > 0
  {
    FirstRuneIsValid(rest);
    if RuneLength(rest) <= width {
      assert rest[..width][..RuneLength(rest)] == rest[..RuneLength(rest)];
    } else if end > 0 {
      NoShorterPrefix(rest, end);
    }
  }

  /** Reading by the returned offsets terminates and reassembles the body. */
  method ReadAll(body: seq<byte>, maximumBytes: nat) returns (r: seq<byte>)
    requires Valid(body) && 4 <= maximumBytes <= MAXIMUM_CHUNK
    ensures r == body
  {
    r := [];
    var offset, more := 0, true;
    assert body[0..] == body;
    while more
      invariant offset <= |body| && r == body[..offset] && Valid(r) && Valid(body[offset..])
      invariant !more ==> offset == |body|
      decreases |body| - offset, more
    {
      var chunk := ReadChunk(body, offset, maximumBytes);
      JoinIsValid(r, chunk.value.content);
      assert body[..chunk.value.next] == r + chunk.value.content;
      RestIsValid(body, chunk.value.next);
      r := r + chunk.value.content;
      offset, more := chunk.value.next, chunk.value.hasMore;
    }
  }
}
