/** Resumability of compaction: what a turn sees after restarts, later turns and
  * regenerations, given the one persisted summary of its conversation.
  */
module SummaryResume {
  import opened Wrappers
  import opened ContextCompaction

  const MAXIMUM_LOADED: nat := 200

  // ----- the operations -----

  ghost predicate Ascending(messages: seq<Message>) {
    && (forall i :: 0 <= i < |messages| ==> messages[i].sequence > 0)
    && (forall i, j :: 0 <= i < j < |messages| ==> messages[i].sequence < messages[j].sequence)
  }

  function Below(messages: seq<Message>, before: Option<nat>): seq<Message> {
    if messages == [] then []
    else
      var last := messages[|messages| - 1];
      Below(messages[..|messages| - 1], before)
      + if Admits(before, last.sequence) then [last] else []
  }

  function Newest(messages: seq<Message>, n: nat): seq<Message> {
    if |messages| <= n then messages else messages[|messages| - n..]
  }

  /** The completed messages a turn starts from: a regeneration only sees those
    * before the regenerated answer's question. */
  function Loaded(stored: seq<Message>, before: Option<nat>): seq<Message> {
    Newest(Below(stored, before), MAXIMUM_LOADED)
  }

  function AfterSequence(messages: seq<Message>, through: nat): seq<Message> {
    if messages == [] then []
    else
      var last := messages[|messages| - 1];
      AfterSequence(messages[..|messages| - 1], through) + if last.sequence > through then [last] else []
  }

  predicate Covers(messages: seq<Message>, sequence: nat) {
    exists i :: 0 <= i < |messages| && messages[i].sequence == sequence
  }

  /** The history a persisted summary stands for. */
  function Applied(history: seq<Message>, summary: Option<Summary>): seq<Message> {
    if summary.Some? && Recognized(summary.value.content) && Covers(history, summary.value.through)
    then [Synthetic(summary.value)] + AfterSequence(history, summary.value.through)
    else history
  }

  method ApplyPersisted(history: seq<Message>, summary: Option<Summary>) returns (r: seq<Message>)
    requires Ascending(history)
    ensures r == Applied(history, summary)
  {
    if summary.None? || !Recognized(summary.value.content) || |history| == 0 {
      return history;
    }
    var through := summary.value.through;
    var index := 0;
    while index < |history| && history[index].sequence != through
      invariant index <= |history|
      invariant forall i :: 0 <= i < index ==> history[i].sequence != through
    {
      index := index + 1;
    }
    if index == |history| {
      return history;
    }
    AfterIsTail(history, through, index);
    r := [Synthetic(summary.value)] + history[index + 1..];
  }

  /** The upsert keeps the row that reaches further. */
  predicate Saves(old': Option<Summary>, summary: Summary) {
    old'.None? || summary.through >= old'.value.through
  }

  // ----- sequences -----

  lemma {:induction false} AfterIsTail(messages: seq<Message>, through: nat, index: nat)
    requires Ascending(messages) && index < |messages| && messages[index].sequence == through
    ensures AfterSequence(messages, through) == messages[index + 1..]
  {
    var n := |messages| - 1;
    if index == n {
      NoneAfter(messages[..n], through);
    } else {
      AfterIsTail(messages[..n], through, index);
      assert messages[index + 1..] == messages[..n][index + 1..] + [messages[n]];
    }
  }

  lemma {:induction false} NoneAfter(messages: seq<Message>, through: nat)
    requires forall i :: 0 <= i < |messages| ==> messages[i].sequence <= through
    ensures AfterSequence(messages, through) == []
  {
    if messages != [] {
      NoneAfter(messages[..|messages| - 1], through);
    }
  }

  predicate Admits(before: Option<nat>, sequence: nat) {
    before.None? || sequence < before.value
  }

  /** Below a bound lies a prefix. */
  lemma {:induction false} BelowIsPrefix(messages: seq<Message>, before: Option<nat>)
    requires Ascending(messages)
    ensures |Below(messages, before)| <= |messages| && Below(messages, before) == messages[..|Below(messages, before)|]
    ensures forall i :: 0 <= i < |messages| ==> (i < |Below(messages, before)| <==> Admits(before, messages[i].sequence))
  {
    if messages != [] {
      var n := |messages| - 1;
      var rest := messages[..n];
      BelowIsPrefix(rest, before);
      var below := Below(rest, before);
      assert Below(messages, before) == below + if Admits(before, messages[n].sequence) then [messages[n]] else [];
      hide Below;
      PrefixGrows(messages, rest, before, below);
    }
  }

  lemma PrefixGrows(messages: seq<Message>, rest: seq<Message>, before: Option<nat>, below: seq<Message>)
    requires Ascending(messages) && messages != [] && rest == messages[..|messages| - 1]
    requires |below| <= |rest| && below == rest[..|below|]
    requires forall i :: 0 <= i < |rest| ==> (i < |below| <==> Admits(before, rest[i].sequence))
    ensures var n := |messages| - 1;
      var below' := below + if Admits(before, messages[n].sequence) then [messages[n]] else [];
      && |below'| <= |messages| && below' == messages[..|below'|]
      && forall i :: 0 <= i < |messages| ==> (i < |below'| <==> Admits(before, messages[i].sequence))
  {
    var n := |messages| - 1;
    assert forall i :: 0 <= i < n ==> rest[i] == messages[i];
    if Admits(before, messages[n].sequence) {
      assert n > 0 ==> Admits(before, rest[n - 1].sequence);
      assert |below| == n;
      assert below + [messages[n]] == messages;
    }
  }

  lemma LoadedIsSegment(stored: seq<Message>, before: Option<nat>)
    requires Ascending(stored)
    ensures Ascending(Loaded(stored, before)) && (forall m :: m in Loaded(stored, before) ==> m in stored)
    ensures forall i :: 0 <= i < |Loaded(stored, before)| ==> Admits(before, Loaded(stored, before)[i].sequence)
  {
    BelowIsPrefix(stored, before);
    var below, base := Below(stored, before), Loaded(stored, before);
    hide Below;
    var cut := |below| - |base|;
    assert forall i :: 0 <= i < |base| ==> base[i] == stored[cut + i];
  }

  // ----- what one compaction leaves -----

  /** What is said while steering has no stored message. */
  ghost predicate Unstored(said: seq<Message>) {
    forall i :: 0 <= i < |said| ==> said[i].sequence == 0
  }

  /** Re-applying the new summary to what the turn started from, and adding what
    * was said since, gives exactly the list the compactor produced - unless the
    * part it replaced ends in what was said. */
  lemma CompactionResumes(
    base: seq<Message>, summary: Option<Summary>, said: seq<Message>, compacted: seq<Message>, made: Summary, r: nat)
    requires Ascending(base) && Unstored(said) && Recognized(made.content)
    requires Summarizes(Applied(base, summary) + said, compacted, made, r)
    ensures made.through == 0 <==> r > |Applied(base, summary)|
    ensures made.through > 0 ==> Covers(base, made.through) && compacted == Applied(base, Some(made)) + said
  {
    var history := Applied(base, summary);
    CutWithin(history, said, compacted, made, r);
    if r > |history| {
      hide *;
    } else if summary.Some? && Recognized(summary.value.content) && Covers(base, summary.value.through) {
      var at :| 0 <= at < |base| && base[at].sequence == summary.value.through;
      AfterIsTail(base, summary.value.through, at);
      assert history == [Synthetic(summary.value)] + base[at + 1..];
      SummarizedTail(base, summary.value, history, at, r);
      AppliedCases(base, made);
      hide *;
    } else {
      PlainTail(base, r);
      AppliedCases(base, made);
      hide *;
    }
  }

  /** Where the replaced part ends. */
  lemma CutWithin(history: seq<Message>, said: seq<Message>, compacted: seq<Message>, made: Summary, r: nat)
    requires Unstored(said) && Summarizes(history + said, compacted, made, r)
    ensures r > |history| ==> made.through == 0
    ensures r <= |history| ==>
      && history[r - 1].sequence == made.through
      && compacted == [Synthetic(made)] + history[r..] + said
  {
    var all := history + said;
    if r > |history| {
      assert all[r - 1] == said[r - 1 - |history|];
    } else {
      assert all[r - 1] == history[r - 1];
      assert all[r..] == history[r..] + said;
      assert [Synthetic(made)] + (history[r..] + said) == [Synthetic(made)] + history[r..] + said;
    }
  }

  lemma PlainTail(base: seq<Message>, r: nat)
    requires Ascending(base) && 0 < r <= |base|
    ensures base[r - 1].sequence > 0 && Covers(base, base[r - 1].sequence)
    ensures AfterSequence(base, base[r - 1].sequence) == base[r..]
  {
    AfterIsTail(base, base[r - 1].sequence, r - 1);
  }

  lemma SummarizedTail(base: seq<Message>, summary: Summary, history: seq<Message>, at: nat, r: nat)
    requires Ascending(base) && at < |base| && base[at].sequence == summary.through
    requires history == [Synthetic(summary)] + base[at + 1..] && 0 < r <= |history|
    ensures history[r - 1].sequence > 0 && Covers(base, history[r - 1].sequence)
    ensures AfterSequence(base, history[r - 1].sequence) == history[r..]
  {
    hide *;
    var index := at + r - 1;
    SyntheticSequence(summary);
    PositiveAt(base, index);
    if r > 1 {
      assert history[r - 1] == base[at + 1..][r - 2];
    }
    CoversAt(base, index);
    AfterIsTail(base, history[r - 1].sequence, index);
    assert history[r..] == base[index + 1..];
  }

  lemma SyntheticSequence(summary: Summary)
    ensures Synthetic(summary).sequence == summary.through
  {
  }

  lemma PositiveAt(messages: seq<Message>, index: nat)
    requires Ascending(messages) && index < |messages|
    ensures messages[index].sequence > 0
  {
  }

  lemma CoversAt(messages: seq<Message>, index: nat)
    requires index < |messages|
    ensures Covers(messages, messages[index].sequence)
  {
  }

  /** A new turn resumes from the summary, followed by every completed message
    * after it, exactly when at most 199 of those exist; otherwise the summary is
    * out of the loaded window and the turn silently starts without it. */
  lemma ResumeIff(stored: seq<Message>, summary: Summary)
    requires Ascending(stored) && Recognized(summary.content) && Covers(stored, summary.through)
    ensures var active := Applied(Loaded(stored, None), Some(summary));
      if |AfterSequence(stored, summary.through)| < MAXIMUM_LOADED
      then active == [Synthetic(summary)] + AfterSequence(stored, summary.through)
      else active == Loaded(stored, None) && |active| == MAXIMUM_LOADED && !Covers(active, summary.through)
  {
    var at :| 0 <= at < |stored| && stored[at].sequence == summary.through;
    WholeIsBelow(stored);
    AfterIsTail(stored, summary.through, at);
    assert Loaded(stored, None) == Newest(stored, MAXIMUM_LOADED);
    AppliedCases(Loaded(stored, None), summary);
    hide *;
    if |stored| - at - 1 < MAXIMUM_LOADED {
      WindowCovers(stored, summary.through, at);
    } else {
      WindowMisses(stored, summary.through, at);
    }
  }

  lemma {:induction false} WholeIsBelow(stored: seq<Message>)
    ensures Below(stored, None) == stored
  {
    if stored != [] {
      var n := |stored| - 1;
      WholeIsBelow(stored[..n]);
      assert Below(stored, None) == Below(stored[..n], None) + [stored[n]];
      hide *;
      assert stored == stored[..n] + [stored[n]];
    }
  }

  lemma AppliedCases(history: seq<Message>, summary: Summary)
    requires Recognized(summary.content)
    ensures Covers(history, summary.through) ==>
      Applied(history, Some(summary)) == [Synthetic(summary)] + AfterSequence(history, summary.through)
    ensures !Covers(history, summary.through) ==> Applied(history, Some(summary)) == history
  {
  }

  lemma WindowCovers(stored: seq<Message>, through: nat, at: nat)
    requires Ascending(stored) && at < |stored| && stored[at].sequence == through && |stored| - at - 1 < MAXIMUM_LOADED
    ensures var base := Newest(stored, MAXIMUM_LOADED);
      Covers(base, through) && AfterSequence(base, through) == stored[at + 1..]
  {
    var cut := |stored| - |Newest(stored, MAXIMUM_LOADED)|;
    assert stored[0..] == stored;
    assert Newest(stored, MAXIMUM_LOADED) == stored[cut..];
    hide *;
    SliceCovers(stored, cut, at);
  }

  lemma SliceCovers(stored: seq<Message>, cut: nat, at: nat)
    requires Ascending(stored) && cut <= at < |stored|
    ensures Covers(stored[cut..], stored[at].sequence)
    ensures AfterSequence(stored[cut..], stored[at].sequence) == stored[at + 1..]
  {
    var base := stored[cut..];
    assert Ascending(base) && base[at - cut] == stored[at];
    hide *;
    CoversAt(base, at - cut);
    AfterIsTail(base, stored[at].sequence, at - cut);
    assert base[at - cut + 1..] == stored[at + 1..];
  }

  lemma WindowMisses(stored: seq<Message>, through: nat, at: nat)
    requires Ascending(stored) && at < |stored| && stored[at].sequence == through && |stored| - at - 1 >= MAXIMUM_LOADED
    ensures var base := Newest(stored, MAXIMUM_LOADED);
      !Covers(base, through) && |base| == MAXIMUM_LOADED
  {
    var base := Newest(stored, MAXIMUM_LOADED);
    var cut := |stored| - |base|;
    assert forall i :: 0 <= i < |base| ==> base[i] == stored[cut + i];
  }

  // ----- whole runs -----

  /** A turn: the messages it loaded, the list it works on, what was said in it
    * since, its bound, and the sequence kept for its answer. */
  datatype Turn = Turn(
    base: seq<Message>, active: seq<Message>, said: seq<Message>, before: Option<nat>, answer: nat)

  /** `sequence` is the last message sequence given out. */
  datatype World = World(stored: seq<Message>, sequence: nat, summary: Option<Summary>, turn: Option<Turn>)

  datatype Action =
    | Ask(text: string)
    | Regenerate(question: nat)
    | Compact(compacted: seq<Message>, made: Summary, r: nat, retainTokens: nat)
    | Steer(text: string)
    | Answer(text: string)
    | Abort

  function Opened(w: World, before: Option<nat>, answer: nat): Turn {
    var base := Loaded(w.stored, before);
    Turn(base, Applied(base, w.summary), [], before, answer)
  }

  predicate HasQuestion(messages: seq<Message>, sequence: nat) {
    exists i :: 0 <= i < |messages| && messages[i].sequence == sequence && messages[i].role == User
  }

  /** A question is stored as its turn begins and is not part of what the turn
    * loads; the answer is stored only if the turn completes.  Steering a turn
    * before any tool call appends what was said so far, under no sequence, and
    * goes on.  A summary without a sequence, or behind the persisted one, is
    * refused and ends the turn. */
  ghost predicate Next(w: World, w': World, a: Action) {
    match a
    case Ask(text) =>
      && w.turn.None?
      && w' == World(w.stored + [Message(w.sequence + 1, User, text)], w.sequence + 2, w.summary,
                     Some(Opened(w, None, w.sequence + 2)))
    case Regenerate(question) =>
      && w.turn.None? && HasQuestion(w.stored, question)
      && w' == w.(sequence := w.sequence + 1, turn := Some(Opened(w, Some(question), w.sequence + 1)))
    case Compact(compacted, made, r, retainTokens) =>
      && w.turn.Some? && Compacts(w.turn.value.active, retainTokens, compacted, made, r)
      && w' == (if made.through > 0 && Saves(w.summary, made)
                then w.(summary := Some(made), turn := Some(w.turn.value.(active := compacted)))
                else w.(turn := None))
    case Steer(text) =>
      && w.turn.Some?
      && var t, message := w.turn.value, Message(0, Assistant, text);
         w' == w.(turn := Some(t.(active := t.active + [message], said := t.said + [message])))
    case Answer(text) =>
      && w.turn.Some?
      && w' == w.(stored := w.stored + [Message(w.turn.value.answer, Assistant, text)], turn := None)
    case Abort => w' == w.(turn := None)
  }

  /** A fork copies the completed messages up to a completed one, and the
    * summary if it reaches no further. */
  function Forked(source: World, sequence: nat, includeBoundary: bool): World {
    var bound := if includeBoundary then sequence + 1 else sequence;
    World(Below(source.stored, Some(bound)), if bound > 0 then bound - 1 else 0,
          if source.summary.Some? && Admits(Some(bound), source.summary.value.through) then source.summary else None,
          None)
  }

  ghost predicate ForkedFrom(w: World, source: World, sequence: nat, includeBoundary: bool) {
    Inv(source) && Covers(source.stored, sequence) && w == Forked(source, sequence, includeBoundary)
  }

  /** The sequences given out so far bound the stored ones. */
  ghost predicate Numbered(stored: seq<Message>, sequence: nat) {
    Ascending(stored) && forall i :: 0 <= i < |stored| ==> stored[i].sequence <= sequence
  }

  /** A conversation begins empty, or imported with messages, or as a fork. */
  ghost predicate Started(w: World) {
    || (Numbered(w.stored, w.sequence) && w.summary.None? && w.turn.None?)
    || exists source, sequence, includeBoundary :: ForkedFrom(w, source, sequence, includeBoundary)
  }

  ghost predicate Behavior(tr: seq<World>, actions: seq<Action>) {
    && |tr| == |actions| + 1 && Started(tr[0])
    && (forall i :: 0 <= i < |actions| ==> Next(tr[i], tr[i + 1], actions[i]))
  }

  /** The turn's base, as far as later steps depend on it: a summary inside its
    * bound is either covered by it or older than all of it. */
  ghost predicate TurnInv(t: Turn, summary: Option<Summary>) {
    && Ascending(t.base) && Unstored(t.said) && t.active == Applied(t.base, summary) + t.said
    && (forall i :: 0 <= i < |t.base| ==> Admits(t.before, t.base[i].sequence))
    && (summary.Some? && Admits(t.before, summary.value.through) && !Covers(t.base, summary.value.through) ==>
          forall i :: 0 <= i < |t.base| ==> t.base[i].sequence > summary.value.through)
  }

  ghost predicate SummaryHeld(stored: seq<Message>, summary: Option<Summary>) {
    summary.Some? ==> Recognized(summary.value.content) && Covers(stored, summary.value.through)
  }

  ghost predicate TurnHeld(t: Turn, w: World) {
    && TurnInv(t, w.summary) && (forall m :: m in t.base ==> m in w.stored)
    && 0 < t.answer <= w.sequence && forall i :: 0 <= i < |w.stored| ==> w.stored[i].sequence < t.answer
  }

  ghost predicate Inv(w: World) {
    && Numbered(w.stored, w.sequence) && SummaryHeld(w.stored, w.summary)
    && (w.turn.Some? ==> TurnHeld(w.turn.value, w))
  }

  lemma OpenedIsSound(w: World, before: Option<nat>, answer: nat)
    requires Inv(w)
    ensures TurnInv(Opened(w, before, answer), w.summary) && Opened(w, before, answer).answer == answer
    ensures forall m :: m in Opened(w, before, answer).base ==> m in w.stored
  {
    LoadedIsSegment(w.stored, before);
    if w.summary.Some? {
      var at :| 0 <= at < |w.stored| && w.stored[at].sequence == w.summary.value.through;
      if Admits(before, w.summary.value.through) {
        OlderThanWindow(w.stored, before, at);
      }
    }
    var t := Opened(w, before, answer);
    assert Applied(t.base, w.summary) + [] == Applied(t.base, w.summary);
    hide Recognized, Loaded, AfterSequence;
  }

  lemma OlderThanWindow(stored: seq<Message>, before: Option<nat>, at: nat)
    requires Ascending(stored) && at < |stored| && Admits(before, stored[at].sequence)
    ensures
      || Covers(Loaded(stored, before), stored[at].sequence)
      || forall i :: 0 <= i < |Loaded(stored, before)| ==> Loaded(stored, before)[i].sequence > stored[at].sequence
  {
    BelowIsPrefix(stored, before);
    var below, base := Below(stored, before), Loaded(stored, before);
    hide Below;
    var cut := |below| - |base|;
    assert forall i :: 0 <= i < |base| ==> base[i] == stored[cut + i];
    assert at >= cut ==> base[at - cut].sequence == stored[at].sequence;
  }

  lemma CoversGrows(stored: seq<Message>, message: Message, sequence: nat)
    requires Covers(stored, sequence)
    ensures Covers(stored + [message], sequence)
  {
    var at :| 0 <= at < |stored| && stored[at].sequence == sequence;
    assert (stored + [message])[at].sequence == sequence;
  }

  lemma AskKeeps(w: World, w': World, text: string)
    requires Inv(w) && Next(w, w', Ask(text))
    ensures Inv(w')
  {
    OpenedIsSound(w, None, w.sequence + 2);
    StoredGrows(w, Message(w.sequence + 1, User, text));
    hide SummaryHeld, TurnInv, Opened;
    assert TurnHeld(w'.turn.value, w');
  }

  lemma StoredGrows(w: World, message: Message)
    requires SummaryHeld(w.stored, w.summary)
    ensures SummaryHeld(w.stored + [message], w.summary) && forall m :: m in w.stored ==> m in w.stored + [message]
  {
    if w.summary.Some? {
      CoversGrows(w.stored, message, w.summary.value.through);
    }
  }

  lemma RegenerateKeeps(w: World, w': World, question: nat)
    requires Inv(w) && Next(w, w', Regenerate(question))
    ensures Inv(w')
  {
    OpenedIsSound(w, Some(question), w.sequence + 1);
    hide SummaryHeld, TurnInv, Opened, HasQuestion;
    assert TurnHeld(w'.turn.value, w');
  }

  lemma AnswerKeeps(w: World, w': World, text: string)
    requires Inv(w) && Next(w, w', Answer(text))
    ensures Inv(w')
  {
    StoredGrows(w, Message(w.turn.value.answer, Assistant, text));
    hide SummaryHeld, TurnInv;
  }

  lemma SteerKeeps(w: World, w': World, text: string)
    requires Inv(w) && Next(w, w', Steer(text))
    ensures Inv(w')
  {
    var t, message := w.turn.value, Message(0, Assistant, text);
    SaidGrows(t, message, w.summary);
    hide TurnInv, SummaryHeld;
    assert TurnHeld(w'.turn.value, w');
  }

  lemma SaidGrows(t: Turn, message: Message, summary: Option<Summary>)
    requires TurnInv(t, summary) && message.sequence == 0
    ensures TurnInv(t.(active := t.active + [message], said := t.said + [message]), summary)
  {
    hide Applied, Covers, Ascending;
    assert Applied(t.base, summary) + t.said + [message] == Applied(t.base, summary) + (t.said + [message]);
  }

  lemma CompactKeeps(w: World, w': World, compacted: seq<Message>, made: Summary, r: nat, retainTokens: nat)
    requires Inv(w) && Next(w, w', Compact(compacted, made, r, retainTokens))
    ensures Inv(w')
  {
    var t := w.turn.value;
    IsFramedIsRecognized(made.content);
    CompactionResumes(t.base, w.summary, t.said, compacted, made, r);
    hide Applied, Ascending, Compacts, Recognized;
    if made.through > 0 {
      CoversStored(t.base, w.stored, made.through);
    }
  }

  lemma CoversStored(base: seq<Message>, stored: seq<Message>, sequence: nat)
    requires Covers(base, sequence) && forall m :: m in base ==> m in stored
    ensures Covers(stored, sequence)
  {
    var at :| 0 <= at < |base| && base[at].sequence == sequence;
    assert base[at] in base;
    var i :| 0 <= i < |stored| && stored[i] == base[at];
  }

  lemma NextKeepsInv(w: World, w': World, a: Action)
    requires Inv(w) && Next(w, w', a)
    ensures Inv(w')
  {
    match a
    case Ask(text) => hide *; AskKeeps(w, w', text);
    case Regenerate(question) => hide *; RegenerateKeeps(w, w', question);
    case Compact(compacted, made, r, retainTokens) => hide *; CompactKeeps(w, w', compacted, made, r, retainTokens);
    case Steer(text) => hide *; SteerKeeps(w, w', text);
    case Answer(text) => hide *; AnswerKeeps(w, w', text);
    case Abort =>
  }

  lemma {:induction false} BehaviorKeepsInv(tr: seq<World>, actions: seq<Action>, i: nat)
    requires Behavior(tr, actions) && i < |tr|
    ensures Inv(tr[i])
  {
    if i == 0 {
      StartedKeeps(tr[0]);
    } else {
      BehaviorKeepsInv(tr, actions, i - 1);
      hide Inv, Next;
      assert Next(tr[i - 1], tr[i - 1 + 1], actions[i - 1]);
      NextKeepsInv(tr[i - 1], tr[i], actions[i - 1]);
    }
  }

  lemma StartedKeeps(w: World)
    requires Started(w)
    ensures Inv(w)
  {
    if !(Numbered(w.stored, w.sequence) && w.summary.None? && w.turn.None?) {
      var source, sequence, includeBoundary :| ForkedFrom(w, source, sequence, includeBoundary);
      ForkIsSound(source, sequence, includeBoundary);
    }
  }

  /** A fork is a sound start: its summary stands only for messages it copied. */
  lemma ForkIsSound(source: World, sequence: nat, includeBoundary: bool)
    requires Inv(source)
    ensures Inv(Forked(source, sequence, includeBoundary))
    ensures var copied := Forked(source, sequence, includeBoundary).stored;
      && copied <= source.stored
      && forall i :: 0 <= i < |source.stored| ==>
           (i < |copied| <==>
              source.stored[i].sequence < sequence || (includeBoundary && source.stored[i].sequence == sequence))
  {
    var bound := Some(if includeBoundary then sequence + 1 else sequence);
    BelowIsPrefix(source.stored, bound);
    var copied := Below(source.stored, bound);
    if source.summary.Some? && Admits(bound, source.summary.value.through) {
      CopiedCovers(source.stored, bound, source.summary.value.through);
    }
    hide Below, Recognized, Covers;
  }

  lemma CopiedCovers(stored: seq<Message>, bound: Option<nat>, through: nat)
    requires Ascending(stored) && Covers(stored, through) && Admits(bound, through)
    ensures Covers(Below(stored, bound), through)
  {
    BelowIsPrefix(stored, bound);
    var copied := Below(stored, bound);
    hide Below;
    var at :| 0 <= at < |stored| && stored[at].sequence == through;
    assert copied[at].sequence == through;
  }

  /** The first turn of a fork works on exactly what a regeneration of the
    * source at that boundary would: nothing after the boundary is left, not
    * even through the summary. */
  lemma ForkResumesLikeRegeneration(source: World, sequence: nat, includeBoundary: bool)
    requires Inv(source)
    ensures var bound := Some(if includeBoundary then sequence + 1 else sequence);
      var child := Forked(source, sequence, includeBoundary);
      && Loaded(child.stored, None) == Loaded(source.stored, bound)
      && Applied(Loaded(child.stored, None), child.summary) == Applied(Loaded(source.stored, bound), source.summary)
  {
    var bound := Some(if includeBoundary then sequence + 1 else sequence);
    WholeIsBelow(Below(source.stored, bound));
    LoadedIsSegment(source.stored, bound);
    hide Below, Recognized, AfterSequence;
  }

  /** Through any run of turns, steering, compactions and restarts, what a turn
    * works on is what re-applying the persisted summary to its stored messages
    * gives, followed by what was said in it. */
  lemma ActiveIsReapplied(tr: seq<World>, actions: seq<Action>, i: nat)
    requires Behavior(tr, actions) && i < |tr| && tr[i].turn.Some?
    ensures tr[i].turn.value.active == Applied(tr[i].turn.value.base, tr[i].summary) + tr[i].turn.value.said
  {
    BehaviorKeepsInv(tr, actions, i);
  }

  /** A compaction's summary is refused, and with it the turn, exactly when what
    * it replaces reaches into what was said while steering, or the turn
    * regenerates an answer the persisted summary already covers. */
  lemma SaveIsRefusedIff(tr: seq<World>, actions: seq<Action>, i: nat)
    requires Behavior(tr, actions) && i < |actions| && actions[i].Compact? && tr[i].turn.Some?
    ensures tr[i + 1].turn.None? <==>
      var t, summary := tr[i].turn.value, tr[i].summary;
      || actions[i].r > |Applied(t.base, summary)|
      || (summary.Some? && t.before.Some? && t.before.value <= summary.value.through)
  {
    BehaviorKeepsInv(tr, actions, i);
    assert Next(tr[i], tr[i + 1], actions[i]);
    var t, a := tr[i].turn.value, actions[i];
    IsFramedIsRecognized(a.made.content);
    CompactionResumes(t.base, tr[i].summary, t.said, a.compacted, a.made, a.r);
    if tr[i].summary.Some? && a.made.through > 0 {
      CompactedThrough(t, tr[i].summary.value, a.compacted, a.made, a.r);
    }
    hide Applied, Recognized, TurnInv, Numbered, Compacts;
  }

  lemma CompactedThrough(t: Turn, summary: Summary, compacted: seq<Message>, made: Summary, r: nat)
    requires TurnInv(t, Some(summary)) && Recognized(summary.content) && Recognized(made.content)
    requires Summarizes(t.active, compacted, made, r) && made.through > 0
    ensures t.before.Some? && t.before.value <= summary.through ==> made.through < summary.through
    ensures t.before.None? || t.before.value > summary.through ==> made.through >= summary.through
  {
    CompactionResumes(t.base, Some(summary), t.said, compacted, made, r);
    CutWithin(Applied(t.base, Some(summary)), t.said, compacted, made, r);
    var at :| 0 <= at < |t.base| && t.base[at].sequence == made.through;
    if Covers(t.base, summary.through) {
      var k :| 0 <= k < |t.base| && t.base[k].sequence == summary.through;
      AfterIsTail(t.base, summary.through, k);
      hide Recognized, AfterSequence;
      assert r > 1 ==> Applied(t.base, Some(summary))[r - 1] == t.base[k + r - 1];
    }
  }

  // ----- runs in which the summary does not help -----

  const LENGTH: nat := 2000

  function LongText(): string {
    seq(LENGTH, i => 'x')
  }

  /** Questions and answers by turns. */
  function Talk(n: nat): seq<Message> {
    seq(n, i requires 0 <= i < n => Message(i + 1, if i % 2 == 0 then User else Assistant, LongText()))
  }

  function SummaryOf(through: nat): Summary {
    Summary(through, Frame("summary"), TextTokens(Frame("summary")))
  }

  ghost predicate AllLong(history: seq<Message>) {
    forall i :: 0 <= i < |history| ==> history[i].content == LongText()
  }

  lemma {:induction false} LongWeighs(history: seq<Message>)
    requires history != [] && AllLong(history)
    ensures HistoryTokens(history) >= LENGTH / 4
  {
    var n := |history| - 1;
    assert history[n].content == LongText();
    hide LongText;
    LongTextWeighs();
  }

  lemma LongTextWeighs()
    ensures TextTokens(LongText()) >= LENGTH / 4
  {
    WeightBounds(LongText());
  }

  lemma {:induction false} BytesBound(s: string)
    ensures Utf8Bytes(s) <= 4 * |s|
  {
    if s != "" {
      BytesBound(s[..|s| - 1]);
    }
  }

  lemma ShortSummary()
    ensures IsFramed(Frame("summary")) && TextTokens(Frame("summary")) < LENGTH / 4
  {
    var text := "summary";
    assert TrimLeft(text) == text && TrimRight(text) == text;
    assert |SUMMARY_PREFIX| < 100 && |SUMMARY_SUFFIX| < 200;
    WeightBounds(Frame(text));
    BytesBound(text);
    hide Utf8Bytes, Weight, TrimLeft, TrimRight;
    assert |Frame(text)| < 400;
    assert text == Trim(text) != "" && Utf8Bytes(text) <= MAXIMUM_SUMMARY_BYTES;
  }

  /** After an overflow the tail is the last question and what follows it, or
    * forty-eight messages without a question. */
  lemma OverflowTail(history: seq<Message>, r: nat)
    requires r < |history| <= r + MAXIMUM_RETAINED_TURNS
    requires history[r].role == User || |history| == r + MAXIMUM_RETAINED_TURNS
    requires forall k :: r < k < |history| ==> history[k].role != User
    ensures IsRetainedTail(history, 0, r)
  {
    var bounded: nat := |history| - 1;
    assert IsBoundedTail(history, 0, bounded) && MovedBack(history, bounded, r);
  }

  lemma Continued(tr: seq<World>, actions: seq<Action>, w: World, a: Action)
    requires Behavior(tr, actions) && Next(tr[|actions|], w, a)
    ensures Behavior(tr + [w], actions + [a])
  {
    hide Next, Started;
    var tr', actions' := tr + [w], actions + [a];
    forall i | 0 <= i < |actions'| ensures Next(tr'[i], tr'[i + 1], actions'[i]) {
      if i < |actions| {
        assert Next(tr[i], tr[i + 1], actions[i]);
      }
    }
  }

  lemma Asked(tr: seq<World>, actions: seq<Action>) returns (tr': seq<World>, actions': seq<Action>)
    requires Behavior(tr, actions) && tr[|actions|].turn.None?
    ensures Behavior(tr', actions') && |actions'| == |actions| + 1 && tr'[|actions|] == tr[|actions|]
    ensures actions'[|actions|].Ask?
    ensures var w := tr[|actions|];
      tr'[|actions'|] == World(w.stored + [Message(w.sequence + 1, User, LongText())], w.sequence + 2, w.summary,
                               Some(Opened(w, None, w.sequence + 2)))
  {
    var w, a := tr[|actions|], Ask(LongText());
    var w' := World(w.stored + [Message(w.sequence + 1, User, LongText())], w.sequence + 2, w.summary,
                    Some(Opened(w, None, w.sequence + 2)));
    hide Behavior, Opened, LongText;
    Continued(tr, actions, w', a);
    tr', actions' := tr + [w'], actions + [a];
  }

  lemma Answered(tr: seq<World>, actions: seq<Action>) returns (tr': seq<World>, actions': seq<Action>)
    requires Behavior(tr, actions) && tr[|actions|].turn.Some?
    ensures Behavior(tr', actions')
    ensures var w := tr[|actions|];
      tr'[|actions'|]
        == w.(stored := w.stored + [Message(w.turn.value.answer, Assistant, LongText())], turn := None)
  {
    var w, a := tr[|actions|], Answer(LongText());
    var w' := w.(stored := w.stored + [Message(w.turn.value.answer, Assistant, LongText())], turn := None);
    hide Behavior, LongText;
    Continued(tr, actions, w', a);
    tr', actions' := tr + [w'], actions + [a];
  }

  lemma Aborted(tr: seq<World>, actions: seq<Action>) returns (tr': seq<World>, actions': seq<Action>)
    requires Behavior(tr, actions)
    ensures Behavior(tr', actions') && tr'[|actions'|] == tr[|actions|].(turn := None)
  {
    var w' := tr[|actions|].(turn := None);
    hide Behavior;
    Continued(tr, actions, w', Abort);
    tr', actions' := tr + [w'], actions + [Abort];
  }

  /** An overflow in which the compactor acts. */
  lemma Compacted(tr: seq<World>, actions: seq<Action>, r: nat) returns (tr': seq<World>, actions': seq<Action>)
    requires Behavior(tr, actions) && tr[|actions|].turn.Some?
    requires var active := tr[|actions|].turn.value.active;
      0 < r < |active| && IsRetainedTail(active, 0, r) && AllLong(active[..r])
    ensures Behavior(tr', actions') && |actions'| == |actions| + 1
    ensures actions'[|actions|].Compact? && tr'[|actions|] == tr[|actions|]
    ensures var w, w' := tr[|actions|], tr'[|actions'|];
      var made := SummaryOf(w.turn.value.active[r - 1].sequence);
      && w'.stored == w.stored && w'.sequence == w.sequence
      && if made.through > 0 && Saves(w.summary, made)
         then w'.turn.Some? && w'.turn.value.answer == w.turn.value.answer && w'.summary == Some(made)
         else w'.turn.None? && w'.summary == w.summary
  {
    var w := tr[|actions|];
    var active, made := w.turn.value.active, SummaryOf(w.turn.value.active[r - 1].sequence);
    LongWeighs(active[..r]);
    ShortSummary();
    hide Behavior, IsRetainedTail, IsFramed, Frame, TextTokens, HistoryTokens, AllLong;
    var compacted := [Synthetic(made)] + active[r..];
    var w' := if made.through > 0 && Saves(w.summary, made)
              then w.(summary := Some(made), turn := Some(w.turn.value.(active := compacted)))
              else w.(turn := None);
    Continued(tr, actions, w', Compact(compacted, made, r, 0));
    tr', actions' := tr + [w'], actions + [Compact(compacted, made, r, 0)];
  }

  lemma TalkGrows(n: nat)
    ensures |Talk(n)| == n && AllLong(Talk(n))
    ensures forall i :: 0 <= i < n ==> Talk(n)[i].sequence == i + 1 && (Talk(n)[i].role == User <==> i % 2 == 0)
    ensures Talk(n + 1) == Talk(n) + [Message(n + 1, if n % 2 == 0 then User else Assistant, LongText())]
  {
    hide LongText;
  }

  lemma {:induction false} Talked(turns: nat) returns (tr: seq<World>, actions: seq<Action>)
    ensures Behavior(tr, actions) && tr[|actions|] == World(Talk(2 * turns), 2 * turns, None, None)
  {
    if turns == 0 {
      tr, actions := [World([], 0, None, None)], [];
      assert Talk(0) == [];
    } else {
      tr, actions := Talked(turns - 1);
      hide Behavior, Talk, Opened;
      var n := 2 * (turns - 1);
      TalkGrows(n);
      TalkGrows(n + 1);
      var w := tr[|actions|];
      tr, actions := Asked(tr, actions);
      OpenedFields(w, None, n + 2);
      tr, actions := Answered(tr, actions);
    }
  }

  lemma OpenedFields(w: World, before: Option<nat>, answer: nat)
    ensures var t := Opened(w, before, answer);
      && t.answer == answer && t.said == [] && t.base == Loaded(w.stored, before)
      && t.active == Applied(Loaded(w.stored, before), w.summary)
  {
  }

  lemma TalkLoaded(n: nat, bound: nat)
    requires 0 < bound <= n <= MAXIMUM_LOADED
    ensures Ascending(Talk(n)) && Loaded(Talk(n), None) == Talk(n) && Loaded(Talk(n), Some(bound)) == Talk(bound - 1)
  {
    TalkGrows(n);
    assert Talk(n)[..bound - 1] == Talk(bound - 1);
    hide Talk;
    LoadedBelow(Talk(n), bound);
  }

  lemma LoadedBelow(talk: seq<Message>, bound: nat)
    requires 0 < bound <= |talk| <= MAXIMUM_LOADED && forall i :: 0 <= i < |talk| ==> talk[i].sequence == i + 1
    ensures Ascending(talk) && Loaded(talk, None) == talk && Loaded(talk, Some(bound)) == talk[..bound - 1]
  {
    assert Ascending(talk);
    WholeIsBelow(talk);
    BelowIsPrefix(talk, Some(bound));
    hide Below, Admits, Ascending, Newest;
    var below := Below(talk, Some(bound));
    CutAt(talk, bound, |below|);
    NewestOfFew(talk, talk);
    NewestOfFew(below, talk);
  }

  lemma NewestOfFew(part: seq<Message>, talk: seq<Message>)
    requires |part| <= |talk| <= MAXIMUM_LOADED
    ensures Newest(part, MAXIMUM_LOADED) == part
  {
  }

  lemma CutAt(talk: seq<Message>, bound: nat, k: nat)
    requires 0 < bound <= |talk| && k <= |talk| && forall i :: 0 <= i < |talk| ==> talk[i].sequence == i + 1
    requires forall i :: 0 <= i < |talk| ==> (i < k <==> Admits(Some(bound), talk[i].sequence))
    ensures k == bound - 1
  {
    assert !Admits(Some(bound), talk[bound - 1].sequence);
    assert bound > 1 ==> Admits(Some(bound), talk[bound - 2].sequence);
  }

  /** The last question of a talk and its answer are what an overflow keeps. */
  lemma TalkTail(n: nat)
    requires 0 < n && n % 2 == 0
    ensures |Talk(n)| == n && IsRetainedTail(Talk(n), 0, n - 2) && AllLong(Talk(n)[..n - 2])
    ensures n > 2 ==> Talk(n)[n - 3].sequence == n - 2
  {
    TalkGrows(n);
    hide Talk, LongText;
    OverflowTail(Talk(n), n - 2);
    hide IsRetainedTail;
  }

  /** Five answered questions; in the fifth turn the first three were summarized. */
  lemma SummarizedRun() returns (tr: seq<World>, actions: seq<Action>)
    ensures Behavior(tr, actions) && tr[|actions|] == World(Talk(10), 10, Some(SummaryOf(6)), None)
  {
    hide *;
    tr, actions := Talked(4);
    BehaviorLength(tr, actions);
    TalkTail(8);
    TalkGrows(8);
    TalkGrows(9);
    OpenedTalk(tr[|actions|]);
    FirstSummary();
    tr, actions := Asked(tr, actions);
    tr, actions := Compacted(tr, actions, 6);
    tr, actions := Answered(tr, actions);
  }

  lemma OpenedTalk(w: World)
    requires w == World(Talk(8), 8, None, None)
    ensures Opened(w, None, 10).active == Talk(8) && Opened(w, None, 10).answer == 10
  {
    TalkLoaded(8, 8);
    hide Talk, Loaded;
  }

  lemma FirstSummary()
    ensures SummaryOf(6).through == 6 && Saves(None, SummaryOf(6))
  {
    hide Frame, TextTokens;
  }

  lemma BehaviorLength(tr: seq<World>, actions: seq<Action>)
    requires Behavior(tr, actions)
    ensures |tr| == |actions| + 1
  {
  }

  lemma AppliedNone(history: seq<Message>)
    ensures Applied(history, None) == history
  {
  }

  /** Regenerating the third answer, which the summary covers: the compaction of
    * what it loads is refused and ends the turn. */
  lemma CoveredAnswerIsRefused() returns (tr: seq<World>, actions: seq<Action>)
    ensures Behavior(tr, actions) && |actions| > 0 && actions[|actions| - 1].Compact?
    ensures tr[|actions| - 1].turn.Some? && tr[|actions| - 1].turn.value.said == [] && tr[|actions|].turn.None?
    ensures tr[|actions|].summary == tr[|actions| - 1].summary == Some(SummaryOf(6))
  {
    tr, actions := SummarizedRun();
    assert |tr| == |actions| + 1;
    var w := tr[|actions|];
    hide Behavior, Opened, Loaded, AllLong, IsRetainedTail, AfterSequence, Frame;
    var begun := w.(sequence := 11, turn := Some(Opened(w, Some(5), 11)));
    TalkGrows(10);
    TalkGrows(4);
    assert HasQuestion(Talk(10), 5) by { assert Talk(10)[4].sequence == 5 && Talk(10)[4].role == User; }
    TalkLoaded(10, 5);
    TalkTail(4);
    OpenedFields(w, Some(5), 11);
    assert !Covers(Talk(4), 6);
    hide Talk, Covers, HasQuestion;
    Continued(tr, actions, begun, Regenerate(5));
    tr, actions := tr + [begun], actions + [Regenerate(5)];
    assert Behavior(tr, actions) && tr[|actions|] == begun by { LastOf(tr, actions, begun); }
    tr, actions := Compacted(tr, actions, 2);
  }

  lemma LastOf(tr: seq<World>, actions: seq<Action>, w: World)
    requires Behavior(tr, actions) && tr[|tr| - 1] == w
    ensures tr[|actions|] == w
  {
  }

  /** A turn that is steered fifty times before any tool call: the compaction
    * replaces only what was said, and its summary has no sequence to be stored
    * under. */
  lemma SteeredTurnIsRefused() returns (tr: seq<World>, actions: seq<Action>)
    ensures Behavior(tr, actions) && |actions| > 0 && actions[|actions| - 1].Compact?
    ensures tr[|actions| - 1].turn.Some? && tr[|actions| - 1].summary.None? && tr[|actions|].turn.None?
  {
    tr, actions := Talked(0);
    var w := tr[|actions|];
    OpenedFields(w, None, 2);
    assert Talk(0) == [] && Loaded([], None) == [];
    AppliedNone([]);
    assert Said(0) == [];
    hide Behavior, Opened, Talk, Loaded, Applied;
    tr, actions := Asked(tr, actions);
    tr, actions := Steered(tr, actions, 0, 50);
    SaidTail(50);
    hide Said, IsRetainedTail, AllLong;
    tr, actions := Compacted(tr, actions, 2);
  }

  function Said(n: nat): seq<Message> {
    seq(n, i requires 0 <= i < n => Message(0, Assistant, LongText()))
  }

  lemma SaidTail(n: nat)
    requires n == MAXIMUM_RETAINED_TURNS + 2
    ensures |Said(n)| == n && IsRetainedTail(Said(n), 0, 2) && AllLong(Said(n)[..2]) && Said(n)[1].sequence == 0
  {
    hide LongText;
    OverflowTail(Said(n), 2);
  }

  lemma {:induction false} Steered(tr: seq<World>, actions: seq<Action>, m: nat, n: nat)
    returns (tr': seq<World>, actions': seq<Action>)
    requires Behavior(tr, actions) && m <= n && tr[|actions|].turn.Some?
    requires tr[|actions|].turn.value.active == Said(m)
    ensures Behavior(tr', actions') && tr'[|actions'|].turn.Some? && tr'[|actions'|].turn.value.active == Said(n)
    ensures tr'[|actions'|].summary == tr[|actions|].summary
    decreases n - m
  {
    tr', actions' := tr, actions;
    if m < n {
      var w, message := tr[|actions|], Message(0, Assistant, LongText());
      var t := w.turn.value;
      var w' := w.(turn := Some(t.(active := t.active + [message], said := t.said + [message])));
      SaidStep(m);
      assert |tr + [w']| == |actions + [Steer(LongText())]| + 1;
      hide Behavior, Said, LongText;
      Continued(tr, actions, w', Steer(LongText()));
      tr', actions' := Steered(tr + [w'], actions + [Steer(LongText())], m + 1, n);
    }
  }

  lemma SaidStep(m: nat)
    ensures Said(m + 1) == Said(m) + [Message(0, Assistant, LongText())]
  {
    hide LongText;
  }

  /** Questions whose turns fail before their first round. */
  function Unanswered(n: nat): seq<Message> {
    seq(n, i requires 0 <= i < n => Message(11 + 2 * i, User, LongText()))
  }

  lemma {:induction false} Failed(n: nat) returns (tr: seq<World>, actions: seq<Action>)
    ensures Behavior(tr, actions)
    ensures tr[|actions|] == World(Talk(10) + Unanswered(n), 10 + 2 * n, Some(SummaryOf(6)), None)
  {
    hide *;
    if n == 0 {
      tr, actions := SummarizedRun();
      NoneUnanswered();
    } else {
      tr, actions := Failed(n - 1);
      UnansweredStep(n - 1);
      tr, actions := Asked(tr, actions);
      tr, actions := Aborted(tr, actions);
    }
  }

  lemma NoneUnanswered()
    ensures Talk(10) + Unanswered(0) == Talk(10)
  {
    hide Talk;
  }

  lemma UnansweredStep(n: nat)
    ensures Talk(10) + Unanswered(n + 1) == Talk(10) + Unanswered(n) + [Message(11 + 2 * n, User, LongText())]
  {
    hide Talk, LongText;
    assert Unanswered(n + 1) == Unanswered(n) + [Message(11 + 2 * n, User, LongText())];
  }

  lemma FailedStored(n: nat)
    ensures var stored := Talk(10) + Unanswered(n);
      && |stored| == 10 + n && Ascending(stored) && stored[5].sequence == 6
  {
    TalkGrows(10);
    hide Talk, LongText;
    var stored := Talk(10) + Unanswered(n);
    forall i | 0 <= i < |stored| ensures stored[i].sequence == if i < 10 then i + 1 else 2 * i - 9 {
      assert stored[i] == if i < 10 then Talk(10)[i] else Unanswered(n)[i - 10];
    }
  }

  /** With two hundred newer messages, most of them questions whose turns failed
    * before any compaction, the summary is still stored and covers a stored
    * message, and a new turn starts without it. */
  lemma SummaryCanBeForgotten() returns (tr: seq<World>, actions: seq<Action>)
    ensures Behavior(tr, actions) && |actions| > 0 && actions[|actions| - 1].Ask?
    ensures var w, w' := tr[|actions| - 1], tr[|actions|];
      && w.summary == w'.summary == Some(SummaryOf(6))
      && Covers(w.stored, 6) && |AfterSequence(w.stored, 6)| == MAXIMUM_LOADED
      && w'.turn.Some? && w'.turn.value.active == w'.turn.value.base && !Covers(w'.turn.value.base, 6)
  {
    tr, actions := Failed(196);
    var w, summary := tr[|actions|], SummaryOf(6);
    FailedStored(196);
    var stored := w.stored;
    ShortSummary();
    IsFramedIsRecognized(summary.content);
    CoversAt(stored, 5);
    AfterIsTail(stored, 6, 5);
    hide Talk, Unanswered, Frame, Recognized, IsFramed, Behavior, AfterSequence, Loaded;
    ResumeIff(stored, summary);
    OpenedFields(w, None, w.sequence + 2);
    hide Applied, Covers, Opened;
    tr, actions := Asked(tr, actions);
  }
}
