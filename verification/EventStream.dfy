/** Server-sent events from a provider (sections 9.2.5 and 9.2.6 of the WHATWG
  * HTML Standard): splitting a byte stream into records, and the data of one.
  */
module ProviderEventStream {
  import opened Wrappers

  // ----- record boundaries -----

  /** The width of the record separator at the start of the text; 0 for none. */
  function SeparatorAt(s: string): nat {
    if |s| >= 4 && s[0] == '\r' && s[1] == '\n' && s[2] == '\r' && s[3] == '\n' then 4
    else if |s| >= 2 && s[0] == s[1] && (s[0] == '\n' || s[0] == '\r') then 2
    else 0
  }

  datatype Cut = Cut(at: nat, width: nat)

  /** The first separator. */
  function Boundary(s: string): (r: Option<Cut>)
    ensures r.Some? ==> r.value.width > 0 && r.value.at + r.value.width <= |s|
  {
    if s == "" then None
    else if SeparatorAt(s) > 0 then Some(Cut(0, SeparatorAt(s)))
    else
      var later := Boundary(s[1..]);
      if later.None? then None else Some(Cut(later.value.at + 1, later.value.width))
  }

  function Index(s: string, separator: string): (r: Option<nat>)
    requires separator != ""
    ensures r.Some? ==> r.value + |separator| <= |s| && separator <= s[r.value..]
    ensures r.Some? ==> forall i :: 0 <= i < r.value ==> !(separator <= s[i..])
    ensures r.None? ==> forall i :: 0 <= i <= |s| ==> !(separator <= s[i..])
  {
    if separator <= s then assert s[0..] == s; Some(0)
    else if s == "" then None
    else
      var later := Index(s[1..], separator);
      assert s[0..] == s;
      assert forall i :: 0 < i <= |s| ==> s[i..] == s[1..][i - 1..];
      if later.None? then None else Some(later.value + 1)
  }

  const CANDIDATES: seq<string> := ["\r\n\r\n", "\n\n", "\r\r"]

  /** The candidate that starts first wins. */
  method FirstBoundary(data: string) returns (r: Option<Cut>)
    ensures r == Boundary(data)
  {
    r := None;
    var found := 0;
    for k := 0 to 3
      invariant found < 3
      invariant r.Some? ==> Index(data, CANDIDATES[found]) == Some(r.value.at) && r.value.width == |CANDIDATES[found]|
      invariant forall c :: 0 <= c < k && Index(data, CANDIDATES[c]).Some? ==>
        r.Some? && r.value.at <= Index(data, CANDIDATES[c]).value
    {
      hide Boundary, SeparatorAt;
      var index := Index(data, CANDIDATES[k]);
      if index.Some? && (r.None? || index.value < r.value.at) {
        r, found := Some(Cut(index.value, |CANDIDATES[k]|)), k;
      }
    }
    FirstIsBoundary(data, r, found);
  }

  lemma FirstIsBoundary(data: string, r: Option<Cut>, found: nat)
    requires found < 3
    requires r.Some? ==> Index(data, CANDIDATES[found]) == Some(r.value.at) && r.value.width == |CANDIDATES[found]|
    requires forall c :: 0 <= c < 3 && Index(data, CANDIDATES[c]).Some? ==>
      r.Some? && r.value.at <= Index(data, CANDIDATES[c]).value
    ensures r == Boundary(data)
  {
    var limit := if r.Some? then r.value.at else |data| + 1;
    forall i | 0 <= i < limit && i <= |data| ensures SeparatorAt(data[i..]) == 0 {
      NoneEarlier(data, limit, i);
    }
    hide SeparatorAt, Boundary;
    if r.Some? {
      CandidateWidth(data[r.value.at..], found);
      BoundaryAt(data, r.value.at);
    } else {
      NoBoundary(data);
    }
  }

  lemma CandidateWidth(s: string, c: nat)
    requires c < 3 && CANDIDATES[c] <= s
    ensures SeparatorAt(s) == |CANDIDATES[c]|
  {
    var w := CANDIDATES[c];
    assert w == "\r\n\r\n" || w == "\n\n" || w == "\r\r";
    assert forall i :: 0 <= i < |w| ==> s[i] == w[i];
  }

  lemma NoneEarlier(data: string, limit: nat, i: nat)
    requires i < limit && i <= |data|
    requires forall c :: 0 <= c < 3 && Index(data, CANDIDATES[c]).Some? ==> limit <= Index(data, CANDIDATES[c]).value
    ensures SeparatorAt(data[i..]) == 0
  {
    forall c | 0 <= c < 3 ensures !(CANDIDATES[c] <= data[i..]) {
      var index := Index(data, CANDIDATES[c]);
    }
    NoCandidate(data[i..]);
  }

  lemma NoCandidate(s: string)
    requires forall c :: 0 <= c < 3 ==> !(CANDIDATES[c] <= s)
    ensures SeparatorAt(s) == 0
  {
    assert !(CANDIDATES[0] <= s) && !(CANDIDATES[1] <= s) && !(CANDIDATES[2] <= s);
    assert CANDIDATES[0] == "\r\n\r\n" && CANDIDATES[1] == "\n\n" && CANDIDATES[2] == "\r\r";
    StartsWith(s);
  }

  lemma StartsWith(s: string)
    ensures SeparatorAt(s) == 4 ==> s[..4] == "\r\n\r\n"
    ensures SeparatorAt(s) == 2 ==> s[..2] == "\n\n" || s[..2] == "\r\r"
  {
  }

  lemma {:induction false} BoundaryAt(data: string, at: nat)
    requires at <= |data| && SeparatorAt(data[at..]) > 0
    requires forall i :: 0 <= i < at ==> SeparatorAt(data[i..]) == 0
    ensures Boundary(data) == Some(Cut(at, SeparatorAt(data[at..])))
  {
    assert data[0..] == data;
    if at > 0 {
      assert data[at..] == data[1..][at - 1..];
      assert forall i :: 0 <= i < at - 1 ==> data[1..][i..] == data[i + 1..];
      BoundaryAt(data[1..], at - 1);
    }
  }

  lemma {:induction false} NoBoundary(data: string)
    requires forall i :: 0 <= i < |data| ==> SeparatorAt(data[i..]) == 0
    ensures Boundary(data).None?
  {
    if data != "" {
      assert data[0..] == data;
      assert forall i :: 0 <= i < |data| - 1 ==> data[1..][i..] == data[i + 1..];
      NoBoundary(data[1..]);
    }
  }

  /** A boundary found on a prefix is never changed by more bytes. */
  lemma {:induction false} BoundaryIsStable(data: string, more: string)
    requires Boundary(data).Some?
    ensures Boundary(data + more) == Boundary(data)
  {
    var all := data + more;
    assert forall i :: 0 <= i < |data| ==> all[i] == data[i];
    if SeparatorAt(data) > 0 {
      assert SeparatorAt(all) == SeparatorAt(data);
    } else {
      SeparatorNeedsLater(data, more);
      assert all[1..] == data[1..] + more;
      BoundaryIsStable(data[1..], more);
    }
  }

  /** Where the prefix shows no separator but has a later one, none starts. */
  lemma SeparatorNeedsLater(data: string, more: string)
    requires data != "" && SeparatorAt(data) == 0 && Boundary(data[1..]).Some?
    ensures SeparatorAt(data + more) == 0
  {
    var cut := Boundary(data[1..]).value;
    assert |data| >= 3;
    assert forall i :: 0 <= i < |data| ==> (data + more)[i] == data[i];
    if |data| == 3 {
      assert cut == Cut(0, 2);
      assert data[1] == data[2];
    }
  }

  // ----- splitting a stream -----

  /** The records of a whole stream. */
  function Records(data: string): seq<string>
    decreases |data|
  {
    if data == "" then []
    else
      var cut := Boundary(data);
      if cut.None? then [data] else [data[..cut.value.at]] + Records(data[cut.value.at + cut.value.width..])
  }

  /** The complete records of a buffer, and what is left of it. */
  function Ready(data: string): (seq<string>, string)
    decreases |data|
  {
    var cut := Boundary(data);
    if cut.None? then ([], data)
    else
      var (records, rest) := Ready(data[cut.value.at + cut.value.width..]);
      ([data[..cut.value.at]] + records, rest)
  }

  function Joined(chunks: seq<string>): string {
    if chunks == [] then "" else Joined(chunks[..|chunks| - 1]) + chunks[|chunks| - 1]
  }

  lemma {:induction false} ReadyRest(data: string)
    ensures Boundary(Ready(data).1).None?
    decreases |data|
  {
    var cut := Boundary(data);
    if cut.Some? {
      ReadyRest(data[cut.value.at + cut.value.width..]);
    }
  }

  // ----- the bound on one record -----

  const MAXIMUM_RECORD: nat := 131072

  /** What a scanner with a bounded buffer yields of a whole stream, and whether
    * it gets to the end: it stops where no record ends within the buffer. */
  function Bounded(data: string): (seq<string>, bool)
    decreases |data|
  {
    if data == "" then ([], true)
    else
      var cut := Boundary(data);
      if cut.Some? && cut.value.at + cut.value.width <= MAXIMUM_RECORD then
        var (records, whole) := Bounded(data[cut.value.at + cut.value.width..]);
        ([data[..cut.value.at]] + records, whole)
      else if |data| >= MAXIMUM_RECORD then ([], false)
      else ([data], true)
  }

  /** The separator of each record; the unterminated one needs a free byte. */
  function Widths(data: string): seq<nat>
    decreases |data|
  {
    if data == "" then []
    else
      var cut := Boundary(data);
      if cut.None? then [1] else [cut.value.width] + Widths(data[cut.value.at + cut.value.width..])
  }

  lemma {:induction false} WidthPerRecord(data: string)
    ensures |Widths(data)| == |Records(data)|
    decreases |data|
  {
    if data != "" {
      var cut := Boundary(data);
      if cut.Some? {
        WidthPerRecord(data[cut.value.at + cut.value.width..]);
      }
    }
  }

  predicate RecordFits(records: seq<string>, widths: seq<nat>, i: nat)
    requires i < |records| == |widths|
  {
    |records[i]| + widths[i] <= MAXIMUM_RECORD
  }

  /** The bounded scanner yields the records before the first one that does not
    * fit the buffer together with its separator, and gets to the end exactly
    * when all fit. */
  lemma {:induction false} BoundedIsPrefix(data: string)
    ensures Bounded(data).0 <= Records(data) && |Widths(data)| == |Records(data)|
    ensures var n := |Bounded(data).0|;
      && (forall i :: 0 <= i < n ==> RecordFits(Records(data), Widths(data), i))
      && if Bounded(data).1 then n == |Records(data)|
         else n < |Records(data)| && !RecordFits(Records(data), Widths(data), n)
    decreases |data|
  {
    WidthPerRecord(data);
    if data != "" {
      var cut := Boundary(data);
      if cut.Some? {
        var (at, width) := (cut.value.at, cut.value.width);
        var rest := data[at + width..];
        BoundedIsPrefix(rest);
        assert Records(data) == [data[..at]] + Records(rest) && Widths(data) == [width] + Widths(rest);
        assert Bounded(data) ==
          if at + width <= MAXIMUM_RECORD then ([data[..at]] + Bounded(rest).0, Bounded(rest).1) else ([], false);
        hide Records, Widths, Bounded, Boundary;
        FitsShifted(data[..at], width, Records(rest), Widths(rest));
        forall i | 0 <= i < |Bounded(data).0| ensures RecordFits(Records(data), Widths(data), i) {
          assert i > 0 ==> RecordFits(Records(rest), Widths(rest), i - 1);
        }
      }
    }
  }

  lemma FitsShifted(head: string, width: nat, records: seq<string>, widths: seq<nat>)
    requires |records| == |widths|
    ensures RecordFits([head] + records, [width] + widths, 0) <==> |head| + width <= MAXIMUM_RECORD
    ensures forall i :: 0 < i <= |records| ==>
      (RecordFits([head] + records, [width] + widths, i) <==> RecordFits(records, widths, i - 1))
  {
  }

  /** A boundary that more bytes bring does not end within the old ones. */
  lemma {:induction false} NewBoundaryIsLater(data: string, more: string)
    requires Boundary(data).None? && Boundary(data + more).Some?
    ensures Boundary(data + more).value.at + Boundary(data + more).value.width > |data|
  {
    if data != "" {
      var all := data + more;
      assert forall i :: 0 <= i < |data| ==> all[i] == data[i];
      assert all[1..] == data[1..] + more;
      if SeparatorAt(all) == 0 {
        NewBoundaryIsLater(data[1..], more);
      }
    }
  }

  lemma FullBufferFails(buffer: string, more: string)
    requires |buffer| == MAXIMUM_RECORD && Boundary(buffer).None?
    ensures Bounded(buffer + more) == ([], false)
  {
    if Boundary(buffer + more).Some? {
      NewBoundaryIsLater(buffer, more);
    }
  }

  /** Taking the complete records out of a buffer early changes nothing. */
  lemma {:induction false} ReadyIsBoundedPrefix(data: string, more: string)
    requires |data| <= MAXIMUM_RECORD
    ensures Bounded(data + more)
      == (Ready(data).0 + Bounded(Ready(data).1 + more).0, Bounded(Ready(data).1 + more).1)
    decreases |data|
  {
    hide Ready, Bounded, Boundary, SeparatorAt;
    var cut := Boundary(data);
    if cut.Some? {
      var head, rest := data[..cut.value.at], data[cut.value.at + cut.value.width..];
      FirstTaken(data, more);
      ReadyIsBoundedPrefix(rest, more);
      Regrouped([head], Ready(rest).0, Bounded(Ready(rest).1 + more).0);
    } else {
      NothingReady(data, Bounded(data + more).0);
    }
  }

  lemma NothingReady(data: string, records: seq<string>)
    requires Boundary(data).None?
    ensures Ready(data) == ([], data) && [] + records == records
  {
    hide Boundary;
  }

  lemma Regrouped(a: seq<string>, b: seq<string>, c: seq<string>)
    ensures a + (b + c) == a + b + c
  {
  }

  lemma FirstTaken(data: string, more: string)
    requires |data| <= MAXIMUM_RECORD && Boundary(data).Some?
    ensures var cut := Boundary(data).value;
      var (head, rest) := (data[..cut.at], data[cut.at + cut.width..]);
      && Ready(data) == ([head] + Ready(rest).0, Ready(rest).1)
      && Bounded(data + more) == ([head] + Bounded(rest + more).0, Bounded(rest + more).1)
  {
    var cut := Boundary(data).value;
    BoundaryIsStable(data, more);
    hide Boundary;
    assert (data + more)[..cut.at] == data[..cut.at];
    assert (data + more)[cut.at + cut.width..] == data[cut.at + cut.width..] + more;
  }

  /** Some records were taken out of the front of a stream. */
  ghost predicate TakenOut(all: string, records: seq<string>, rest: string) {
    forall more {:trigger all + more} ::
      Bounded(all + more) == (records + Bounded(rest + more).0, Bounded(rest + more).1)
  }

  lemma ReadyIsTakenOut(all: string, piece: string, records: seq<string>, rest: string)
    requires TakenOut(all, records, rest) && |rest + piece| <= MAXIMUM_RECORD
    ensures TakenOut(all + piece, records + Ready(rest + piece).0, Ready(rest + piece).1)
  {
    var ready := Ready(rest + piece);
    forall more
      ensures Bounded(all + piece + more) == (records + ready.0 + Bounded(ready.1 + more).0, Bounded(ready.1 + more).1)
    {
      assert Bounded(all + (piece + more))
          == (records + Bounded(rest + (piece + more)).0, Bounded(rest + (piece + more)).1);
      TakenOutStep(all, piece, records, rest, more);
    }
    hide Ready, Bounded;
  }

  lemma TakenOutStep(all: string, piece: string, records: seq<string>, rest: string, more: string)
    requires |rest + piece| <= MAXIMUM_RECORD
    requires Bounded(all + (piece + more))
          == (records + Bounded(rest + (piece + more)).0, Bounded(rest + (piece + more)).1)
    ensures var ready := Ready(rest + piece);
      Bounded(all + piece + more) == (records + ready.0 + Bounded(ready.1 + more).0, Bounded(ready.1 + more).1)
  {
    hide *;
    ReadyIsBoundedPrefix(rest + piece, more);
    assert all + piece + more == all + (piece + more);
    assert rest + piece + more == rest + (piece + more);
    var ready := Ready(rest + piece);
    assert records + (ready.0 + Bounded(ready.1 + more).0) == records + ready.0 + Bounded(ready.1 + more).0;
  }

  /** The scanner: every read fills at most the buffer, which is then split; a
    * full buffer without a record end is an error, and the rest at the end of the
    * stream is its last record. */
  method Scan(chunks: seq<string>) returns (records: seq<string>, whole: bool)
    ensures (records, whole) == Bounded(Joined(chunks))
  {
    var buffer := "";
    records := [];
    NothingTakenOut(chunks);
    hide Boundary, Bounded, Ready, Joined, TakenOut;
    for index := 0 to |chunks|
      invariant TakenOut(Joined(chunks[..index]), records, buffer) && |buffer| < MAXIMUM_RECORD
      invariant Boundary(buffer).None?
    {
      assert chunks[..index + 1][..index] == chunks[..index];
      JoinedStep(chunks, index);
      var full: bool;
      ghost var n: nat;
      records, buffer, full, n := Read(Joined(chunks[..index]), records, buffer, chunks[index]);
      if full {
        TakenOutFails(chunks, index, n, records, buffer);
        return records, false;
      }
      assert chunks[index][..n] == chunks[index];
    }
    assert chunks[..|chunks|] == chunks;
    TakenToTheEnd(Joined(chunks), records, buffer);
    RestIsLast(buffer);
    assert records + [] == records;
    if buffer != "" {
      records := records + [buffer];
    }
    whole := true;
  }

  lemma NothingTakenOut(chunks: seq<string>)
    ensures TakenOut(Joined(chunks[..0]), [], "") && Boundary("").None?
  {
    forall more ensures Bounded(Joined(chunks[..0]) + more) == ([] + Bounded("" + more).0, Bounded("" + more).1) {
      assert [] + Bounded("" + more).0 == Bounded("" + more).0;
    }
  }

  lemma TakenToTheEnd(all: string, records: seq<string>, rest: string)
    requires TakenOut(all, records, rest)
    ensures Bounded(all) == (records + Bounded(rest).0, Bounded(rest).1)
  {
    assert all + "" == all && rest + "" == rest;
  }

  lemma JoinedStep(chunks: seq<string>, index: nat)
    requires index < |chunks|
    ensures Joined(chunks[..index + 1]) == Joined(chunks[..index]) + chunks[index]
  {
    assert chunks[..index + 1][..index] == chunks[..index];
  }

  /** One chunk, taken in pieces that fit the buffer. */
  method Read(ghost all: string, taken: seq<string>, rest: string, chunk: string)
      returns (records: seq<string>, buffer: string, full: bool, ghost n: nat)
    requires TakenOut(all, taken, rest) && |rest| < MAXIMUM_RECORD && Boundary(rest).None?
    ensures Boundary(buffer).None? && |buffer| <= MAXIMUM_RECORD && (full <==> |buffer| == MAXIMUM_RECORD)
    ensures n <= |chunk| && TakenOut(all + chunk[..n], records, buffer) && (!full ==> n == |chunk|)
  {
    hide TakenOut, Boundary, Ready, Bounded;
    records, buffer, full := taken, rest, false;
    var done := 0;
    assert all + chunk[..0] == all;
    while done < |chunk| && !full
      invariant done <= |chunk| && TakenOut(all + chunk[..done], records, buffer)
      invariant Boundary(buffer).None? && |buffer| <= MAXIMUM_RECORD && (full <==> |buffer| == MAXIMUM_RECORD)
      decreases |chunk| - done, !full
    {
      var space := MAXIMUM_RECORD - |buffer|;
      var end := if |chunk| - done <= space then |chunk| else done + space;
      var piece := chunk[done..end];
      assert all + chunk[..done] + piece == all + chunk[..end];
      ReadyIsTakenOut(all + chunk[..done], piece, records, buffer);
      ReadyRest(buffer + piece);
      ReadyShortens(buffer + piece);
      var ready := Ready(buffer + piece);
      records, buffer, done := records + ready.0, ready.1, end;
      full := |buffer| == MAXIMUM_RECORD;
    }
    n := done;
  }

  lemma {:induction false} ReadyShortens(data: string)
    ensures |Ready(data).1| <= |data|
    decreases |data|
  {
    var cut := Boundary(data);
    if cut.Some? {
      ReadyShortens(data[cut.value.at + cut.value.width..]);
    }
  }

  lemma RestIsLast(buffer: string)
    requires |buffer| < MAXIMUM_RECORD && Boundary(buffer).None?
    ensures Bounded(buffer) == (if buffer == "" then [] else [buffer], true)
  {
  }

  /** Once the buffer is full without a record end, nothing that follows helps. */
  lemma TakenOutFails(chunks: seq<string>, index: nat, n: nat, records: seq<string>, buffer: string)
    requires index < |chunks| && |buffer| == MAXIMUM_RECORD && Boundary(buffer).None?
    requires n <= |chunks[index]| && TakenOut(Joined(chunks[..index]) + chunks[index][..n], records, buffer)
    ensures Bounded(Joined(chunks)) == (records, false)
  {
    var all := Joined(chunks[..index]);
    var more := chunks[index][n..] + JoinedFrom(chunks, index + 1);
    JoinedSplits(chunks, index);
    FullBufferFails(buffer, more);
    hide Boundary, Bounded, Joined, JoinedFrom;
    assert all + chunks[index][..n] + more == Joined(chunks);
    assert records + [] == records;
  }

  function JoinedFrom(chunks: seq<string>, index: nat): string
    requires index <= |chunks|
    decreases |chunks| - index
  {
    if index == |chunks| then "" else chunks[index] + JoinedFrom(chunks, index + 1)
  }

  lemma {:induction false} JoinedSplits(chunks: seq<string>, index: nat)
    requires index < |chunks|
    ensures Joined(chunks) == Joined(chunks[..index]) + chunks[index] + JoinedFrom(chunks, index + 1)
    decreases |chunks| - index
  {
    var head := Joined(chunks[..index]);
    if index == |chunks| - 1 {
      assert JoinedFrom(chunks, index + 1) == "";
    } else {
      JoinedSplits(chunks, index + 1);
      assert chunks[..index + 1][..index] == chunks[..index];
      assert Joined(chunks[..index + 1]) == head + chunks[index];
      var rest := JoinedFrom(chunks, index + 2);
      assert head + chunks[index] + (chunks[index + 1] + rest) == head + chunks[index] + chunks[index + 1] + rest;
    }
  }

  // ----- the data of a record -----

  function ReplaceCrLf(s: string): string
    decreases |s|
  {
    if s == "" then ""
    else if |s| >= 2 && s[0] == '\r' && s[1] == '\n' then "\n" + ReplaceCrLf(s[2..])
    else [s[0]] + ReplaceCrLf(s[1..])
  }

  function ReplaceCr(s: string): string {
    if s == "" then "" else [if s[0] == '\r' then '\n' else s[0]] + ReplaceCr(s[1..])
  }

  function Lines(s: string): (r: seq<string>)
    ensures r != []
  {
    if s == "" then [""]
    else if s[0] == '\n' then [""] + Lines(s[1..])
    else
      var rest := Lines(s[1..]);
      [[s[0]] + rest[0]] + rest[1..]
  }

  function JoinLines(lines: seq<string>, eol: string): string {
    if lines == [] then "" else if |lines| == 1 then lines[0] else lines[0] + eol + JoinLines(lines[1..], eol)
  }

  function Field(line: string): (r: string)
    ensures |r| <= |line| && (|r| < |line| ==> line[|r|] == ':')
  {
    if line == "" || line[0] == ':' then "" else [line[0]] + Field(line[1..])
  }

  /** The value of a data line; no other line has one. */
  function DataOf(line: string): Option<string> {
    if line == "" || line[0] == ':' || Field(line) != "data" then None
    else
      var value := if |line| == 4 then "" else line[5..];
      Some(if value != "" && value[0] == ' ' then value[1..] else value)
  }

  function DataLines(lines: seq<string>): seq<string> {
    if lines == [] then []
    else (if DataOf(lines[0]).Some? then [DataOf(lines[0]).value] else []) + DataLines(lines[1..])
  }

  function Data(record: string): Option<string> {
    var lines := DataLines(Lines(ReplaceCr(ReplaceCrLf(record))));
    if lines == [] then None else Some(JoinLines(lines, "\n"))
  }

  // ----- what a server writes -----

  predicate Style(eol: string) {
    eol == "\n" || eol == "\r\n" || eol == "\r"
  }

  /** A line of an event: data, with or without the customary space, a comment,
    * or another field. */
  datatype Line = Value(text: string) | Tight(text: string) | Comment(text: string) | Named(name: string, text: string)

  predicate WellFormed(line: Line) {
    && Plain(line.text)
    && (line.Tight? ==> line.text == "" || line.text[0] != ' ')
    && (line.Named? ==> Plain(line.name) && line.name != "" && line.name != "data" && ':' !in line.name)
  }

  function LineText(line: Line): string {
    match line
    case Value(text) => "data: " + text
    case Tight(text) => "data:" + text
    case Comment(text) => ":" + text
    case Named(name, text) => name + ":" + text
  }

  function Texts(event: seq<Line>): seq<string> {
    if event == [] then [] else [LineText(event[0])] + Texts(event[1..])
  }

  function Values(event: seq<Line>): seq<string> {
    if event == [] then []
    else (if event[0].Value? || event[0].Tight? then [event[0].text] else []) + Values(event[1..])
  }

  /** What an event carries: its data lines, joined. */
  function Carried(event: seq<Line>): Option<string> {
    if Values(event) == [] then None else Some(JoinLines(Values(event), "\n"))
  }

  predicate IsEvent(event: seq<Line>) {
    event != [] && forall i :: 0 <= i < |event| ==> WellFormed(event[i])
  }

  function Body(event: seq<Line>, eol: string): string {
    JoinLines(Texts(event), eol)
  }

  /** Every event is its lines and an empty line, with one line ending. */
  function Written(events: seq<seq<Line>>, eol: string): string {
    if events == [] then "" else Body(events[0], eol) + eol + eol + Written(events[1..], eol)
  }

  function DataOfAll(records: seq<string>): seq<Option<string>> {
    if records == [] then [] else [Data(records[0])] + DataOfAll(records[1..])
  }

  function CarriedAll(events: seq<seq<Line>>): seq<Option<string>> {
    if events == [] then [] else [Carried(events[0])] + CarriedAll(events[1..])
  }

  predicate Plain(s: string) {
    forall i :: 0 <= i < |s| ==> s[i] != '\r' && s[i] != '\n'
  }

  /** Lines that are written: without line breaks and not empty. */
  predicate Writable(lines: seq<string>) {
    forall i :: 0 <= i < |lines| ==> Plain(lines[i]) && lines[i] != ""
  }

  lemma {:induction false} LinesJoin(s: string)
    ensures JoinLines(Lines(s), "\n") == s
  {
    if s != "" {
      LinesJoin(s[1..]);
      var rest := Lines(s[1..]);
      if s[0] == '\n' {
        assert ([""] + rest)[1..] == rest;
      } else {
        JoinFirst(s[0], rest);
      }
    }
  }

  lemma JoinFirst(c: char, rest: seq<string>)
    requires rest != []
    ensures JoinLines([[c] + rest[0]] + rest[1..], "\n") == [c] + JoinLines(rest, "\n")
  {
    var joined := [[c] + rest[0]] + rest[1..];
    assert joined[1..] == rest[1..];
  }

  // a text without line breaks passes through everything

  lemma {:induction false} PlainHasNoBoundary(line: string, rest: string)
    requires Plain(line) && Boundary(rest).Some?
    ensures Boundary(line + rest) == Some(Cut(|line| + Boundary(rest).value.at, Boundary(rest).value.width))
  {
    if line == "" {
      assert line + rest == rest;
    } else {
      var all := line + rest;
      assert all[0] == line[0] && all[1..] == line[1..] + rest;
      PlainHasNoBoundary(line[1..], rest);
      assert SeparatorAt(all) == 0;
      hide SeparatorAt;
    }
  }

  lemma {:induction false} PlainIsKept(line: string, rest: string)
    requires Plain(line)
    ensures ReplaceCrLf(line + rest) == line + ReplaceCrLf(rest)
    ensures ReplaceCr(line + rest) == line + ReplaceCr(rest)
  {
    if line == "" {
      assert line + rest == rest;
    } else {
      var all := line + rest;
      assert all[0] == line[0] && all[1..] == line[1..] + rest;
      PlainIsKept(line[1..], rest);
      assert line == [line[0]] + line[1..];
    }
  }

  lemma {:induction false} PlainLine(line: string)
    requires Plain(line)
    ensures Lines(line) == [line]
  {
    if line != "" {
      PlainLine(line[1..]);
      assert [line[0]] + line[1..] == line;
    }
  }

  lemma {:induction false} PlainLineFirst(line: string, rest: string)
    requires Plain(line)
    ensures Lines(line + "\n" + rest) == [line] + Lines(rest)
  {
    var all := line + "\n" + rest;
    if line == "" {
      assert all[0] == '\n' && all[1..] == rest;
    } else {
      assert all[0] == line[0] && all[1..] == line[1..] + "\n" + rest;
      PlainLineFirst(line[1..], rest);
      assert ([line[1..]] + Lines(rest))[1..] == Lines(rest);
      assert [line[0]] + line[1..] == line;
    }
  }

  // the end of an event is found, and only there

  lemma {:induction false} BodyBoundary(lines: seq<string>, eol: string, rest: string)
    requires lines != [] && Writable(lines) && Style(eol)
    ensures Boundary(JoinLines(lines, eol) + eol + eol + rest) == Some(Cut(|JoinLines(lines, eol)|, 2 * |eol|))
  {
    var first := lines[0];
    if |lines| == 1 {
      assert Plain(first);
      hide Boundary, Writable, Plain, Style;
      BoundaryLast(first, eol, rest);
    } else {
      MoreLines(lines, eol);
      BodyBoundary(lines[1..], eol, rest);
      hide *;
      BoundaryStep(first, eol, JoinLines(lines[1..], eol), rest);
    }
  }

  lemma MoreLines(lines: seq<string>, eol: string)
    requires |lines| > 1 && Writable(lines)
    ensures var tail := JoinLines(lines[1..], eol);
      && JoinLines(lines, eol) == lines[0] + eol + tail
      && Plain(lines[0]) && Writable(lines[1..]) && BeginsPlain(tail)
  {
    var rest := lines[1..];
    assert forall i :: 0 <= i < |rest| ==> rest[i] == lines[i + 1];
    assert rest[0] <= JoinLines(rest, eol);
  }

  predicate BeginsPlain(s: string) {
    s != "" && s[0] != '\r' && s[0] != '\n'
  }

  lemma BoundaryLast(first: string, eol: string, rest: string)
    requires Plain(first) && Style(eol)
    ensures Boundary(first + eol + eol + rest) == Some(Cut(|first|, 2 * |eol|))
  {
    EndIsBoundary(eol, rest);
    hide *;
    assert first + eol + eol + rest == first + (eol + eol + rest);
    PlainHasNoBoundary(first, eol + eol + rest);
  }

  lemma BoundaryStep(first: string, eol: string, tail: string, rest: string)
    requires Plain(first) && Style(eol) && BeginsPlain(tail)
    requires Boundary(tail + eol + eol + rest) == Some(Cut(|tail|, 2 * |eol|))
    ensures Boundary(first + eol + tail + eol + eol + rest) == Some(Cut(|first + eol + tail|, 2 * |eol|))
  {
    var after := tail + eol + eol + rest;
    assert after[0] == tail[0] && BeginsPlain(after);
    hide *;
    EolIsSkipped(eol, after);
    assert first + eol + tail + eol + eol + rest == first + (eol + after);
    PlainHasNoBoundary(first, eol + after);
  }

  lemma EndIsBoundary(eol: string, rest: string)
    requires Style(eol)
    ensures Boundary(eol + eol + rest) == Some(Cut(0, 2 * |eol|))
  {
    var all := eol + eol + rest;
    if eol == "\r\n" {
      assert all[..4] == "\r\n\r\n";
    } else {
      assert all[..2] == eol + eol;
      assert all[0] == all[1] == eol[0];
    }
  }

  lemma EolIsSkipped(eol: string, after: string)
    requires Style(eol) && BeginsPlain(after) && Boundary(after).Some?
    ensures Boundary(eol + after) == Some(Cut(|eol| + Boundary(after).value.at, Boundary(after).value.width))
  {
    var all := eol + after;
    if eol == "\r\n" {
      assert all[0] == '\r' && all[1] == '\n' && all[2] == after[0];
      assert all[1..][0] == '\n' && all[1..][1] == after[0];
      assert all[1..][1..] == after;
    } else {
      assert all[0] == eol[0] && all[1] == after[0];
      assert all[1..] == after;
    }
  }

  // normalizing a record undoes the line ending

  lemma {:induction false} Normalized(lines: seq<string>, eol: string)
    requires lines != [] && Writable(lines) && Style(eol)
    ensures ReplaceCr(ReplaceCrLf(JoinLines(lines, eol))) == JoinLines(lines, "\n")
  {
    var first := lines[0];
    if |lines| == 1 {
      assert Plain(first) && first + "" == first;
      PlainIsKept(first, "");
    } else {
      MoreLines(lines, eol);
      MoreLines(lines, "\n");
      Normalized(lines[1..], eol);
      hide *;
      NormalizedStep(first, eol, JoinLines(lines[1..], eol));
    }
  }

  lemma NormalizedStep(first: string, eol: string, tail: string)
    requires Plain(first) && Style(eol) && BeginsPlain(tail)
    ensures ReplaceCr(ReplaceCrLf(first + eol + tail)) == first + "\n" + ReplaceCr(ReplaceCrLf(tail))
  {
    hide *;
    EolNormalized(eol, tail);
    PlainIsNormal(first, eol + tail);
    assert first + eol + tail == first + (eol + tail);
    var rest := ReplaceCr(ReplaceCrLf(tail));
    assert first + ("\n" + rest) == first + "\n" + rest;
  }

  lemma PlainIsNormal(first: string, rest: string)
    requires Plain(first)
    ensures ReplaceCr(ReplaceCrLf(first + rest)) == first + ReplaceCr(ReplaceCrLf(rest))
  {
    hide *;
    PlainIsKept(first, rest);
    PlainIsKept(first, ReplaceCrLf(rest));
  }

  lemma EolNormalized(eol: string, tail: string)
    requires Style(eol) && BeginsPlain(tail)
    ensures ReplaceCr(ReplaceCrLf(eol + tail)) == "\n" + ReplaceCr(ReplaceCrLf(tail))
  {
    var all := eol + tail;
    if eol == "\r\n" {
      assert all[..2] == "\r\n" && all[2..] == tail;
      assert ("\n" + ReplaceCrLf(tail))[1..] == ReplaceCrLf(tail);
    } else {
      assert all[0] == eol[0] && all[1] == tail[0] && all[1..] == tail;
      assert ReplaceCrLf(all) == eol + ReplaceCrLf(tail);
      assert (eol + ReplaceCrLf(tail))[1..] == ReplaceCrLf(tail);
    }
  }

  lemma {:induction false} LinesOfBody(lines: seq<string>)
    requires lines != [] && Writable(lines)
    ensures Lines(JoinLines(lines, "\n")) == lines
  {
    if |lines| == 1 {
      assert Plain(lines[0]);
      PlainLine(lines[0]);
    } else {
      MoreLines(lines, "\n");
      LinesOfBody(lines[1..]);
      PlainLineFirst(lines[0], JoinLines(lines[1..], "\n"));
      hide *;
      assert [lines[0]] + lines[1..] == lines;
    }
  }

  // the lines of an event

  lemma {:induction false} TextsAreWritable(event: seq<Line>)
    requires forall i :: 0 <= i < |event| ==> WellFormed(event[i])
    ensures Writable(Texts(event)) && |Texts(event)| == |event|
  {
    if event != [] {
      TextsAreWritable(event[1..]);
      TextIsPlain(event[0]);
      var rest := Texts(event[1..]);
      hide WellFormed, LineText, Plain;
      assert forall i :: 0 <= i < |rest| ==> ([LineText(event[0])] + rest)[i + 1] == rest[i];
    }
  }

  lemma PlainJoins(a: string, b: string)
    requires Plain(a) && Plain(b)
    ensures Plain(a + b)
  {
  }

  lemma TextIsPlain(line: Line)
    requires WellFormed(line)
    ensures Plain(LineText(line)) && LineText(line) != ""
  {
    match line
    case Value(text) => PlainJoins("data: ", text);
    case Tight(text) => PlainJoins("data:", text);
    case Comment(text) => PlainJoins(":", text);
    case Named(name, text) =>
      PlainJoins(name, ":");
      PlainJoins(name + ":", text);
  }

  lemma {:induction false} FieldIsName(name: string, rest: string)
    requires ':' !in name
    ensures Field(name + ":" + rest) == name
  {
    var all := name + ":" + rest;
    if name == "" {
      assert all[0] == ':';
    } else {
      assert all[0] == name[0] && all[1..] == name[1..] + ":" + rest;
      FieldIsName(name[1..], rest);
      assert [name[0]] + name[1..] == name;
    }
  }

  /** A data line gives its text, any other line nothing. */
  lemma DataOfLine(line: Line)
    requires WellFormed(line)
    ensures DataOf(LineText(line)) == if line.Value? || line.Tight? then Some(line.text) else None
  {
    match line
    case Value(value) => AfterSpace(value);
    case Tight(value) => AfterData(value);
    case Comment(value) => assert LineText(line)[0] == ':';
    case Named(name, value) =>
      FieldIsName(name, value);
      hide Field, Plain;
  }

  lemma AfterSpace(value: string)
    ensures DataOf("data: " + value) == Some(value)
  {
    AfterData(" " + value);
    hide DataOf;
    assert "data:" + (" " + value) == "data: " + value && (" " + value)[1..] == value;
  }

  lemma AfterData(rest: string)
    ensures DataOf("data:" + rest) == Some(if rest != "" && rest[0] == ' ' then rest[1..] else rest)
  {
    var line := "data:" + rest;
    FieldIsName("data", rest);
    assert "data" + ":" + rest == line && line[0] == 'd';
    hide Field;
    assert line[5..] == rest;
  }

  lemma {:induction false} DataOfEvent(event: seq<Line>)
    requires forall i :: 0 <= i < |event| ==> WellFormed(event[i])
    ensures DataLines(Texts(event)) == Values(event)
  {
    if event != [] {
      var all := Texts(event);
      assert all[0] == LineText(event[0]) && all[1..] == Texts(event[1..]);
      assert DataLines(all) == (if DataOf(all[0]).Some? then [DataOf(all[0]).value] else []) + DataLines(all[1..]);
      DataOfEvent(event[1..]);
      DataOfLine(event[0]);
      hide DataOf, LineText, WellFormed;
    }
  }

  lemma DataOfBody(event: seq<Line>, eol: string)
    requires IsEvent(event) && Style(eol)
    ensures Data(Body(event, eol)) == Carried(event)
  {
    TextsAreWritable(event);
    Normalized(Texts(event), eol);
    LinesOfBody(Texts(event));
    DataOfEvent(event);
    hide WellFormed, ReplaceCr, ReplaceCrLf, Lines, DataLines, Values, Texts, JoinLines;
  }

  /** An event whose data lines are the lines of a value carries that value. */
  lemma ValueIsCarried(event: seq<Line>, value: string)
    requires Values(event) == Lines(value)
    ensures Carried(event) == Some(value)
  {
    LinesJoin(value);
  }

  /** For a stream written with one line ending, splitting and extracting give
    * back what each event carries: the lines of its data, whatever comments and
    * other fields stand between them.  The records are the events' texts, each
    * ended by two line endings. */
  lemma {:induction false} WrittenIsRead(events: seq<seq<Line>>, eol: string)
    requires Style(eol) && forall i :: 0 <= i < |events| ==> IsEvent(events[i])
    ensures DataOfAll(Records(Written(events, eol))) == CarriedAll(events)
    ensures |Records(Written(events, eol))| == |Widths(Written(events, eol))| == |events|
    ensures forall i :: 0 <= i < |events| ==>
      Records(Written(events, eol))[i] == Body(events[i], eol) && Widths(Written(events, eol))[i] == 2 * |eol|
  {
    if events != [] {
      var body, rest := Body(events[0], eol), Written(events[1..], eol);
      FirstWritten(events[0], eol, rest);
      DataOfBody(events[0], eol);
      WrittenIsRead(events[1..], eol);
      assert Written(events, eol) == body + eol + eol + rest;
      hide Written, Records, Widths, Body, Carried, Data, IsEvent, Style;
      assert ([body] + Records(rest))[1..] == Records(rest);
    }
  }

  lemma FirstWritten(event: seq<Line>, eol: string, rest: string)
    requires Style(eol) && IsEvent(event)
    ensures var all := Body(event, eol) + eol + eol + rest;
      Records(all) == [Body(event, eol)] + Records(rest) && Widths(all) == [2 * |eol|] + Widths(rest)
  {
    TextsAreWritable(event);
    BodyBoundary(Texts(event), eol, rest);
    var body := Body(event, eol);
    var all := body + eol + eol + rest;
    hide Boundary, Texts, WellFormed, JoinLines, Writable;
    assert all[..|body|] == body;
    assert all[|body| + 2 * |eol|..] == rest;
  }

  /** However the stream is cut into reads, the scanner gets to its end exactly
    * when every event fits the buffer with its two line endings, and then what
    * it extracts is what the events carry. */
  lemma WrittenIsScanned(chunks: seq<string>, events: seq<seq<Line>>, eol: string)
    requires Style(eol) && forall i :: 0 <= i < |events| ==> IsEvent(events[i])
    requires Joined(chunks) == Written(events, eol)
    ensures Bounded(Joined(chunks)).1 <==>
      forall i :: 0 <= i < |events| ==> |Body(events[i], eol)| + 2 * |eol| <= MAXIMUM_RECORD
    ensures Bounded(Joined(chunks)).1 ==> DataOfAll(Bounded(Joined(chunks)).0) == CarriedAll(events)
  {
    hide *;
    var data := Joined(chunks);
    BoundedIsPrefix(data);
    WrittenIsRead(events, eol);
    FitAlike(Records(data), Widths(data), events, eol, |Bounded(data).0|, Bounded(data).1);
    WholePrefix(Bounded(data).0, Records(data));
  }

  lemma WholePrefix(a: seq<string>, b: seq<string>)
    requires a <= b
    ensures |a| == |b| ==> a == b
  {
  }

  lemma FitAlike(records: seq<string>, widths: seq<nat>, events: seq<seq<Line>>, eol: string, n: nat, whole: bool)
    requires |records| == |widths| == |events| && n <= |records|
    requires forall i :: 0 <= i < |events| ==> records[i] == Body(events[i], eol) && widths[i] == 2 * |eol|
    requires forall i :: 0 <= i < n ==> RecordFits(records, widths, i)
    requires if whole then n == |records| else n < |records| && !RecordFits(records, widths, n)
    ensures whole <==> forall i :: 0 <= i < |events| ==> |Body(events[i], eol)| + 2 * |eol| <= MAXIMUM_RECORD
  {
    hide Body;
    forall i | 0 <= i < |events|
      ensures RecordFits(records, widths, i) <==> |Body(events[i], eol)| + 2 * |eol| <= MAXIMUM_RECORD
    {
      assert records[i] == Body(events[i], eol);
    }
  }
}
