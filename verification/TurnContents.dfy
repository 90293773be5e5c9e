/** What the turn operations store and when they act: which calls are accepted,
  * what a message holds afterwards, how a generation's end shows in the rows and
  * in the history, and the tool runs as the journal told them.
  */
module TurnContents {
  import opened Wrappers
  import opened EventJournal
  import opened ConversationTurns

  // ----- what one operation stores, and when it is accepted -----

  /** A new question is accepted exactly while nothing is generating; it is
    * stored complete, followed by an empty streaming answer. */
  lemma BeginTurnOpens(c: Conversation, userId: Id, generationId: Id, assistantId: Id, prompt: string)
    requires Inv(c) && IndexOf(c.messages, userId) == |c.messages|
    ensures BeginTurn(c, userId, generationId, assistantId, prompt).Ok? <==>
      && 0 < |prompt| <= MAXIMUM_PROMPT_BYTES && c.phase != Generating
      && assistantId != userId && forall m :: m in c.messages ==> m.id != assistantId
    ensures BeginTurn(c, userId, generationId, assistantId, prompt).Ok? ==>
      var t := BeginTurn(c, userId, generationId, assistantId, prompt).value;
      var n := |c.messages|;
      && !t.replayed && t.conversation.messages == c.messages + [t.user, t.assistant]
      && t.conversation.ledger == c.ledger
      && Owns(t.conversation, generationId, assistantId)
      && t.user == Message(userId, 1, n + 1, User, MessageComplete, "", prompt, "", [], generationId)
      && t.assistant == Message(assistantId, 1, n + 2, Assistant, MessageStreaming, "", "", "", [], generationId)
  {
    NotStored(c.messages, assistantId);
  }

  lemma NotStored(messages: seq<Message>, id: Id)
    ensures IndexOf(messages, id) == |messages| <==> forall m :: m in messages ==> m.id != id
  {
    var k := IndexOf(messages, id);
    if k < |messages| {
      assert messages[k] in messages;
    }
  }

  /** The question a regeneration answers again. */
  ghost predicate AnswersQuestion(messages: seq<Message>, target: nat, question: nat) {
    && question < target <= |messages| && messages[question].role == User
    && forall i :: question < i < target ==> messages[i].role != User
  }

  lemma {:induction false} UserBeforeAnswers(messages: seq<Message>, k: nat)
    requires k <= |messages|
    ensures UserBefore(messages, k) < k ==> AnswersQuestion(messages, k, UserBefore(messages, k))
    ensures UserBefore(messages, k) == k ==> forall i :: 0 <= i < k ==> messages[i].role != User
  {
    if k > 0 {
      UserBeforeAnswers(messages, k - 1);
    }
  }

  /** An answer can be generated again exactly while nothing is generating and a
    * question precedes it; everything stored stays, and an empty streaming answer
    * to the newest question before it is added. */
  lemma RegenerateOpens(c: Conversation, targetId: Id, generationId: Id, assistantId: Id)
    requires Inv(c)
    ensures Regenerate(c, targetId, generationId, assistantId).Ok? <==>
      && c.phase != Generating && (forall m :: m in c.messages ==> m.id != assistantId)
      && exists target: nat, question: nat ::
           && AnswersQuestion(c.messages, target, question) && target < |c.messages|
           && c.messages[target].id == targetId && c.messages[target].role == Assistant
    ensures Regenerate(c, targetId, generationId, assistantId).Ok? ==>
      var t := Regenerate(c, targetId, generationId, assistantId).value;
      && t.conversation.messages == c.messages + [t.assistant] && t.conversation.ledger == c.ledger
      && Owns(t.conversation, generationId, assistantId)
      && t.assistant == Message(assistantId, 1, |c.messages| + 1, Assistant, MessageStreaming, "", "", "", [], generationId)
      && exists target: nat, question: nat ::
           && AnswersQuestion(c.messages, target, question) && target < |c.messages|
           && c.messages[target].id == targetId && t.user == c.messages[question]
  {
    NotStored(c.messages, assistantId);
    var k := IndexOf(c.messages, targetId);
    if k < |c.messages| {
      UserBeforeAnswers(c.messages, k);
    }
    forall target: nat, question: nat |
      AnswersQuestion(c.messages, target, question) && target < |c.messages| && c.messages[target].id == targetId
      ensures target == k && UserBefore(c.messages, k) < k
    {
      assert c.messages[question].role == User;
    }
  }

  /** A delta of the running generation is accepted exactly within its bounds,
    * and then it is what the message gains and what the journal records. */
  lemma DeltaIsStored(c: Conversation, field: Field, delta: string, now: int, encode: Body -> nat)
    requires Inv(c) && c.phase == Generating
    ensures
      var m := c.messages[|c.messages| - 1];
      AppendDelta(c, c.generationId, c.activeAssistant, field, delta, now, encode).Ok? <==>
        && 0 < |delta| <= MAXIMUM_DELTA_BYTES
        && |if field == Text then m.content else m.reasoning| + |delta| <= MAXIMUM_ASSISTANT_BYTES
        && m.revision != MAX_SAFE_INTEGER && encode(Delta(field, delta)) <= MAXIMUM_EVENT_PAYLOAD
        && |c.ledger.log| < MAX_SAFE_INTEGER
    ensures AppendDelta(c, c.generationId, c.activeAssistant, field, delta, now, encode).Ok? ==>
      var c' := AppendDelta(c, c.generationId, c.activeAssistant, field, delta, now, encode).value;
      var k := |c.messages| - 1;
      var m := c.messages[k];
      && c'.messages == c.messages[k := m.(revision := m.revision + 1,
                                           content := m.content + (if field == Text then delta else ""),
                                           reasoning := m.reasoning + (if field == Reasoning then delta else ""))]
      && c'.ledger.log == c.ledger.log + [Event(|c.ledger.log| + 1, c.generationId, c.activeAssistant,
                                                Delta(field, delta), encode(Delta(field, delta)), now)]
      && c'.phase == Generating
  {
    hide Inv, Appended;
    ActiveStreams(c);
    assert c.messages[|c.messages| - 1].content + "" == c.messages[|c.messages| - 1].content;
    assert c.messages[|c.messages| - 1].reasoning + "" == c.messages[|c.messages| - 1].reasoning;
  }

  lemma ActiveStreams(c: Conversation)
    requires Inv(c) && c.phase == Generating
    ensures c.messages != [] && IndexOf(c.messages, c.activeAssistant) == |c.messages| - 1
    ensures var m := c.messages[|c.messages| - 1];
      m.status == MessageStreaming && m.id == c.activeAssistant && m.generationId == c.generationId
    ensures Latest(c.ledger.rows) == |c.ledger.log| && LedgerInv(c.ledger)
  {
    ActiveIsLast(c);
  }

  /** Nothing is written for a generation that is not the running one. */
  lemma NotOwned(c: Conversation, generationId: Id, assistantId: Id, field: Field, delta: string, run: ToolRun,
      status: MessageStatus, code: string, now: int, encode: Body -> nat)
    requires !Owns(c, generationId, assistantId)
    ensures AppendDelta(c, generationId, assistantId, field, delta, now, encode).Err?
    ensures UpsertToolRun(c, generationId, assistantId, run, now, encode).Err?
    ensures CompleteTurn(c, generationId, assistantId, status, code, now, encode).Err?
    ensures RequestApproval(c, generationId, assistantId, now, encode).Err?
  {
  }

  /** Approval requests and collaboration updates change the journal alone. */
  lemma JournalOnly(c: Conversation, generationId: Id, messageId: Id, now: int, encode: Body -> nat)
    requires Inv(c)
    ensures Collaborate(c, generationId, messageId, now, encode).Ok? <==>
      encode(EventJournal.Collaboration) <= MAXIMUM_EVENT_PAYLOAD && |c.ledger.log| < MAX_SAFE_INTEGER
    ensures Collaborate(c, generationId, messageId, now, encode).Ok? ==>
      var c' := Collaborate(c, generationId, messageId, now, encode).value;
      && c' == c.(ledger := c'.ledger)
      && c'.ledger.log == c.ledger.log + [Event(|c.ledger.log| + 1, generationId, messageId, EventJournal.Collaboration,
                                                encode(EventJournal.Collaboration), now)]
    ensures RequestApproval(c, generationId, messageId, now, encode).Ok? <==>
      && Owns(c, generationId, messageId)
      && encode(ApprovalRequested) <= MAXIMUM_EVENT_PAYLOAD && |c.ledger.log| < MAX_SAFE_INTEGER
    ensures RequestApproval(c, generationId, messageId, now, encode).Ok? ==>
      var c' := RequestApproval(c, generationId, messageId, now, encode).value;
      && c' == c.(ledger := c'.ledger)
      && c'.ledger.log == c.ledger.log + [Event(|c.ledger.log| + 1, generationId, messageId, ApprovalRequested,
                                                encode(ApprovalRequested), now)]
  {
    hide RowsInv, SettledInv, TerminalIsFinal, StreamingInv;
  }

  // ----- tool runs -----

  ghost predicate DistinctRuns(runs: seq<ToolRun>) {
    forall i, j :: 0 <= i < j < |runs| ==> runs[i].id != runs[j].id
  }

  predicate HasRun(runs: seq<ToolRun>, id: Id) {
    exists i :: 0 <= i < |runs| && runs[i].id == id
  }

  /** The runs after `run` was reported: it is stored, once, and takes the place
    * of its earlier report; the others are as they were. */
  ghost predicate Reported(before: seq<ToolRun>, after: seq<ToolRun>, run: ToolRun) {
    && |after| == |before| + (if HasRun(before, run.id) then 0 else 1)
    && (forall i :: 0 <= i < |before| && before[i].id != run.id ==> after[i] == before[i])
    && (forall i :: 0 <= i < |after| && after[i].id == run.id ==> after[i] == run)
    && HasRun(after, run.id) && DistinctRuns(after)
  }

  lemma ReportIsStored(before: seq<ToolRun>, run: ToolRun)
    requires DistinctRuns(before)
    ensures HasRun(before, run.id) <==> RunIndex(before, run.id) < |before|
    ensures var r := RunIndex(before, run.id);
      Reported(before, if r == |before| then before + [run] else before[r := run], run)
  {
    var r := RunIndex(before, run.id);
    if r < |before| {
      assert before[r].id == run.id;
      ReplacedRun(before, r, run);
    } else {
      AppendedRun(before, run);
    }
  }

  lemma ReplacedRun(before: seq<ToolRun>, r: nat, run: ToolRun)
    requires DistinctRuns(before) && r < |before| && before[r].id == run.id
    ensures Reported(before, before[r := run], run)
  {
    var after := before[r := run];
    assert forall i :: 0 <= i < |before| ==> after[i].id == before[i].id;
    forall i | 0 <= i < |after| && after[i].id == run.id ensures i == r {
      assert before[i].id == before[r].id;
    }
    assert DistinctRuns(after);
    assert after[r].id == run.id;
    hide DistinctRuns;
  }

  lemma AppendedRun(before: seq<ToolRun>, run: ToolRun)
    requires DistinctRuns(before) && !HasRun(before, run.id)
    ensures Reported(before, before + [run], run)
  {
    var after := before + [run];
    assert after[|before|].id == run.id;
    forall i | 0 <= i < |before| ensures after[i].id != run.id {
      assert before[i].id != run.id;
    }
  }

  /** A run of the running generation is accepted exactly when it is new and
    * running, or may follow what was last reported; then the message holds it. */
  lemma ToolRunIsStored(c: Conversation, run: ToolRun, now: int, encode: Body -> nat)
    requires Inv(c) && c.phase == Generating && DistinctRuns(c.messages[|c.messages| - 1].toolRuns)
    ensures
      var m := c.messages[|c.messages| - 1];
      UpsertToolRun(c, c.generationId, c.activeAssistant, run, now, encode).Ok? <==>
        && ValidToolRun(run) && m.revision != MAX_SAFE_INTEGER
        && encode(ToolStatus(run.id, run.status)) <= MAXIMUM_EVENT_PAYLOAD && |c.ledger.log| < MAX_SAFE_INTEGER
        && (if HasRun(m.toolRuns, run.id)
            then forall i :: 0 <= i < |m.toolRuns| && m.toolRuns[i].id == run.id ==> RunMayFollow(m.toolRuns[i], run)
            else |m.toolRuns| < MAXIMUM_TOOL_RUNS && run.status == Running)
    ensures UpsertToolRun(c, c.generationId, c.activeAssistant, run, now, encode).Ok? ==>
      var c' := UpsertToolRun(c, c.generationId, c.activeAssistant, run, now, encode).value;
      var k := |c.messages| - 1;
      var m := c.messages[k];
      && |c'.messages| == |c.messages| && Reported(m.toolRuns, c'.messages[k].toolRuns, run)
      && c' == c.(ledger := c'.ledger,
                  messages := c.messages[k := m.(revision := m.revision + 1, toolRuns := c'.messages[k].toolRuns)])
      && c'.ledger.log == c.ledger.log + [Event(|c.ledger.log| + 1, c.generationId, c.activeAssistant,
           ToolStatus(run.id, run.status), encode(ToolStatus(run.id, run.status)), now)]
  {
    hide Inv, Reported, HasRun, ValidToolRun, RunMayFollow, Appended;
    ActiveStreams(c);
    var runs := c.messages[|c.messages| - 1].toolRuns;
    ReportIsStored(runs, run);
    var r := RunIndex(runs, run.id);
    assert r < |runs| ==> forall i :: 0 <= i < |runs| && runs[i].id == run.id ==> i == r;
    hide DistinctRuns;
  }

  // ----- completion -----

  ghost predicate EmitsAll(log: seq<Event>, bodies: seq<Body>, encode: Body -> nat) {
    |log| + |bodies| <= MAX_SAFE_INTEGER && forall b :: b in bodies ==> encode(b) <= MAXIMUM_EVENT_PAYLOAD
  }

  lemma {:induction false} EmitAllIff(l: Ledger, generationId: Id, messageId: Id, bodies: seq<Body>, now: int,
      encode: Body -> nat)
    requires LedgerInv(l) && |l.log| <= MAX_SAFE_INTEGER
    ensures EmitAll(l, generationId, messageId, bodies, now, encode).Ok? <==> EmitsAll(l.log, bodies, encode)
    decreases |bodies|
  {
    if bodies != [] {
      var event := EventFor(generationId, messageId, bodies[0], now, encode);
      assert bodies == [bodies[0]] + bodies[1..];
      if Emit(l, event).Ok? {
        EmitKeeps(l, event);
        EmitAllIff(Emit(l, event).value, generationId, messageId, bodies[1..], now, encode);
      }
    }
  }

  /** What a completion makes of one run. */
  ghost predicate SettledAs(before: ToolRun, after: ToolRun, status: MessageStatus, errorCode: string, now: int) {
    if before.status != Running then after == before
    else
      && after == before.(status := after.status, finishedAt := Some(now), errorCode := after.errorCode)
      && after.status == (if status == MessageStopped then RunCancelled else RunFailed)
      && after.errorCode == (if status == MessageStopped then "cancelled"
                             else if errorCode != "" then errorCode else "generation_failed")
  }

  /** A generation ends in the status asked for, exactly when that is an ending,
    * a complete answer says something and runs nothing any more, and there is
    * room for what the journal has to tell; the message keeps its text, its
    * running runs are settled, and the conversation is free again. */
  lemma CompletionIsStored(c: Conversation, status: MessageStatus, errorCode: string, now: int, encode: Body -> nat)
    requires Inv(c) && c.phase == Generating && |c.ledger.log| <= MAX_SAFE_INTEGER
    ensures
      var m := c.messages[|c.messages| - 1];
      CompleteTurn(c, c.generationId, c.activeAssistant, status, errorCode, now, encode).Ok? <==>
        && status != MessageStreaming && |errorCode| <= 80 && m.revision != MAX_SAFE_INTEGER
        && (status == MessageComplete ==> !(IsBlank(m.content) && m.toolRuns == []) && RunningOf(m.toolRuns) == [])
        && EmitsAll(c.ledger.log, CompletionBodies(m.toolRuns, status), encode)
    ensures CompleteTurn(c, c.generationId, c.activeAssistant, status, errorCode, now, encode).Ok? ==>
      var c' := CompleteTurn(c, c.generationId, c.activeAssistant, status, errorCode, now, encode).value;
      var k := |c.messages| - 1;
      var m := c.messages[k];
      && |c'.messages| == |c.messages|
      && c'.messages == c.messages[k := m.(status := status, errorCode := errorCode, revision := m.revision + 1,
                                           toolRuns := c'.messages[k].toolRuns)]
      && |c'.messages[k].toolRuns| == |m.toolRuns|
      && (forall r :: 0 <= r < |m.toolRuns| ==> SettledAs(m.toolRuns[r], c'.messages[k].toolRuns[r], status, errorCode, now))
      && c'.phase == (if status == MessageFailed then GenerationFailed else Idle)
      && c'.generationId == "" && c'.activeAssistant == ""
  {
    hide Inv, EmitAll, CompletionBodies, IsBlank, RunningOf, HasRunning, EmitsAll, LedgerInv;
    ActiveStreams(c);
    var m := c.messages[|c.messages| - 1];
    NoneRunning(m.toolRuns);
    EmitAllIff(c.ledger, c.generationId, c.activeAssistant, CompletionBodies(m.toolRuns, status), now, encode);
    if CompleteTurn(c, c.generationId, c.activeAssistant, status, errorCode, now, encode).Ok? {
      CompletionSettles(c, status, errorCode, now, encode);
    }
  }

  lemma CompletionSettles(c: Conversation, status: MessageStatus, errorCode: string, now: int, encode: Body -> nat)
    requires Inv(c) && c.phase == Generating
    requires CompleteTurn(c, c.generationId, c.activeAssistant, status, errorCode, now, encode).Ok?
    ensures
      var c' := CompleteTurn(c, c.generationId, c.activeAssistant, status, errorCode, now, encode).value;
      var k := |c.messages| - 1;
      var m := c.messages[k];
      && c'.messages == c.messages[k := m.(status := status, errorCode := errorCode, revision := m.revision + 1,
                                           toolRuns := SettledRuns(m.toolRuns, status, errorCode, now))]
      && c'.phase == (if status == MessageFailed then GenerationFailed else Idle)
      && c'.generationId == "" && c'.activeAssistant == ""
      && forall r :: 0 <= r < |m.toolRuns| ==>
           SettledAs(m.toolRuns[r], SettledRuns(m.toolRuns, status, errorCode, now)[r], status, errorCode, now)
  {
    hide Inv, EmitAll, CompletionBodies, IsBlank, RunningOf, HasRunning;
    ActiveStreams(c);
  }

  /** A conversation can be forked exactly at a complete message, before it only
    * at a question; whatever streams comes later. */
  lemma ForkIsAcceptedIff(source: Conversation, messageId: Id, includeBoundary: bool, newIds: seq<Id>)
    requires Inv(source)
    ensures Fork(source, messageId, includeBoundary, newIds).Ok? <==>
      exists k: nat ::
        && k < |source.messages| && source.messages[k].id == messageId && source.messages[k].status == MessageComplete
        && (includeBoundary || source.messages[k].role == User)
        && (if includeBoundary then k + 1 else k) <= |newIds|
  {
    var k := IndexOf(source.messages, messageId);
    assert forall j :: 0 <= j < |source.messages| && source.messages[j].id == messageId ==> j == k;
    hide LedgerInv, TerminalIsFinal, SettledInv;
  }

  // ----- the end of a generation, in the rows and in the history -----

  lemma {:induction false} AssistantOfIs(messages: seq<Message>, generationId: Id)
    ensures var k := AssistantOf(messages, generationId);
      if k < |messages| then messages[k].role == Assistant && messages[k].generationId == generationId
      else forall i :: 0 <= i < |messages| && messages[i].role == Assistant ==> messages[i].generationId != generationId
  {
    if messages != [] {
      AssistantOfIs(messages[..|messages| - 1], generationId);
    }
  }

  predicate IsAnswer(m: Message) {
    m.role == Assistant && m.generationId != ""
  }

  ghost predicate HasAnswer(messages: seq<Message>, generationId: Id) {
    exists i :: 0 <= i < |messages| && IsAnswer(messages[i]) && messages[i].generationId == generationId
  }

  ghost predicate AnswersDiffer(messages: seq<Message>) {
    forall i, j :: 0 <= i < j < |messages| && IsAnswer(messages[i]) && IsAnswer(messages[j]) ==>
      messages[i].generationId != messages[j].generationId
  }

  /** Every answer opened here belongs to a generation of its own, which has its
    * terminal event exactly once the answer no longer streams. */
  ghost predicate GenerationsInv(c: Conversation) {
    && AnswersDiffer(c.messages)
    && (forall i :: 0 <= i < |c.messages| && IsAnswer(c.messages[i]) ==>
          (c.messages[i].status != MessageStreaming <==> Ended(c.ledger.log, c.messages[i].generationId)))
    && (forall e :: e in c.ledger.log && IsTerminal(e.body) ==> HasAnswer(c.messages, e.generationId))
  }

  lemma {:induction false} NoAnswerInCopies(c: Conversation)
    requires Started(c)
    ensures forall i :: 0 <= i < |c.messages| ==> !IsAnswer(c.messages[i])
    ensures c.ledger.log == []
  {
    StartedKeeps(c);
    if c != EMPTY {
      var source, messageId, includeBoundary, newIds :| ForkedFrom(c, source, messageId, includeBoundary, newIds);
      ForkIsSound(source, messageId, includeBoundary, newIds);
      hide Inv;
    }
  }

  lemma StartedGenerations(c: Conversation)
    requires Started(c)
    ensures GenerationsInv(c)
  {
    NoAnswerInCopies(c);
  }

  /** An opening operation adds one answer of a fresh generation. */
  lemma OpenedGenerations(c: Conversation, c': Conversation, added: seq<Message>, generationId: Id)
    requires GenerationsInv(c) && c'.messages == c.messages + added && c'.ledger == c.ledger
    requires Fresh(c, generationId) && added != [] && added[|added| - 1].generationId == generationId
    requires added[|added| - 1].status == MessageStreaming
    requires forall i :: 0 <= i < |c.messages| ==> c.messages[i].status != MessageStreaming
    requires forall i :: 0 <= i < |added| - 1 ==> added[i].role != Assistant
    ensures GenerationsInv(c')
  {
    var log := c.ledger.log;
    forall i | 0 <= i < |c.messages| && IsAnswer(c.messages[i]) ensures c.messages[i].generationId != generationId {
      assert Ended(log, c.messages[i].generationId);
      var e :| 0 <= e < |log| && IsTerminal(log[e].body) && log[e].generationId == c.messages[i].generationId;
      assert log[e] in log;
    }
    NotAmong(log, generationId);
    forall e | e in log && IsTerminal(e.body) ensures HasAnswer(c'.messages, e.generationId) {
      AnswerStays(c.messages, c'.messages, e.generationId);
    }
  }

  lemma NotAmong(log: seq<Event>, generationId: Id)
    requires forall e :: e in log ==> e.generationId != generationId
    ensures !Ended(log, generationId)
  {
    forall i | 0 <= i < |log| ensures log[i].generationId != generationId {
      assert log[i] in log;
    }
  }

  lemma AnswerStays(messages: seq<Message>, messages': seq<Message>, generationId: Id)
    requires HasAnswer(messages, generationId) && |messages| <= |messages'|
    requires forall i :: 0 <= i < |messages| ==>
      messages'[i].role == messages[i].role && messages'[i].generationId == messages[i].generationId
    ensures HasAnswer(messages', generationId)
  {
    var i :| 0 <= i < |messages| && IsAnswer(messages[i]) && messages[i].generationId == generationId;
    assert IsAnswer(messages'[i]);
  }

  ghost predicate SameHeads(messages: seq<Message>, messages': seq<Message>) {
    && |messages'| == |messages|
    && forall i :: 0 <= i < |messages| ==>
         messages'[i].role == messages[i].role && messages'[i].generationId == messages[i].generationId
  }

  /** A write without a terminal event changes no status. */
  lemma WrittenGenerations(c: Conversation, c': Conversation, news: seq<Event>)
    requires GenerationsInv(c) && SameHeads(c.messages, c'.messages) && c'.ledger.log == c.ledger.log + news
    requires forall i :: 0 <= i < |c.messages| ==> c'.messages[i].status == c.messages[i].status
    requires forall e :: e in news ==> !IsTerminal(e.body)
    ensures GenerationsInv(c')
  {
    forall g ensures Ended(c'.ledger.log, g) <==> Ended(c.ledger.log, g) {
      EndedGrows(c.ledger.log, news, g);
    }
    forall e | e in c'.ledger.log && IsTerminal(e.body) ensures HasAnswer(c'.messages, e.generationId) {
      assert e in c.ledger.log;
      AnswerStays(c.messages, c'.messages, e.generationId);
    }
    hide Ended;
  }

  lemma EndedGrows(log: seq<Event>, news: seq<Event>, generationId: Id)
    ensures Ended(log + news, generationId) <==> Ended(log, generationId) || Ended(news, generationId)
  {
    var all := log + news;
    if Ended(log, generationId) {
      var i :| 0 <= i < |log| && IsTerminal(log[i].body) && log[i].generationId == generationId;
      assert all[i] == log[i];
    }
    if Ended(news, generationId) {
      var i :| 0 <= i < |news| && IsTerminal(news[i].body) && news[i].generationId == generationId;
      assert all[|log| + i] == news[i];
    }
    if Ended(all, generationId) {
      var i :| 0 <= i < |all| && IsTerminal(all[i].body) && all[i].generationId == generationId;
      assert all[i] == if i < |log| then log[i] else news[i - |log|];
    }
  }

  /** A completion settles the last answer and ends its generation. */
  lemma CompletedGenerations(c: Conversation, c': Conversation, news: seq<Event>, generationId: Id)
    requires GenerationsInv(c) && SameHeads(c.messages, c'.messages) && c'.ledger.log == c.ledger.log + news
    requires c.messages != [] && generationId != ""
    requires var k := |c.messages| - 1;
      && c.messages[k].role == Assistant && c.messages[k].generationId == generationId
      && c'.messages[k].status != MessageStreaming
      && forall i :: 0 <= i < k ==> c'.messages[i] == c.messages[i]
    requires forall e :: e in news ==> e.generationId == generationId
    requires Ended(c'.ledger.log, generationId)
    ensures GenerationsInv(c')
  {
    var k := |c.messages| - 1;
    assert IsAnswer(c.messages[k]);
    forall g | g != generationId ensures Ended(c'.ledger.log, g) <==> Ended(c.ledger.log, g) {
      EndedGrows(c.ledger.log, news, g);
      NotAmong(news, g);
    }
    forall e | e in c'.ledger.log && IsTerminal(e.body) ensures HasAnswer(c'.messages, e.generationId) {
      if e in c.ledger.log {
        AnswerStays(c.messages, c'.messages, e.generationId);
      } else {
        assert IsAnswer(c'.messages[k]);
      }
    }
    hide Ended;
  }

  lemma SameGenerations(c: Conversation, c': Conversation)
    requires GenerationsInv(c) && c' == c
    ensures GenerationsInv(c')
  {
  }

  lemma NothingStreams(c: Conversation)
    requires Inv(c) && c.phase != Generating
    ensures forall i :: 0 <= i < |c.messages| ==> c.messages[i].status != MessageStreaming
  {
  }

  lemma StepKeepsGenerations(c: Conversation, c': Conversation, op: Op, encode: Body -> nat)
    requires Inv(c) && GenerationsInv(c) && Step(c, c', op, encode)
    ensures GenerationsInv(c')
  {
    hide Inv, GenerationsInv, CompleteTurn, Appended;
    if Applied(c, op, encode).Err? {
      SameGenerations(c, c');
    } else {
      match op
      case OpBegin(u, g, a, p) => hide Fresh; OpeningKeepsGenerations(c, c', op, encode);
      case OpRegenerate(t, g, a) => hide Fresh; OpeningKeepsGenerations(c, c', op, encode);
      case OpComplete(g, a, s, code, now) => CompletionKeepsGenerations(c, c', g, a, s, code, now, encode);
      case OpRecover(now) =>
        if c.phase == Generating {
          CompletionKeepsGenerations(c, c', c.generationId, c.activeAssistant, MessageStopped, "agent_restarted", now, encode);
        } else {
          SameGenerations(c, c');
        }
      case _ => WritingKeepsGenerations(c, c', op, encode);
    }
  }

  lemma OpeningKeepsGenerations(c: Conversation, c': Conversation, op: Op, encode: Body -> nat)
    requires Inv(c) && GenerationsInv(c) && Step(c, c', op, encode) && Applied(c, op, encode).Ok?
    requires op.OpBegin? || op.OpRegenerate?
    ensures GenerationsInv(c')
  {
    hide GenerationsInv, Fresh, LedgerInv, TerminalIsFinal, RowsInv, SettledInv;
    if c.phase == Generating || c' == c {
      SameGenerations(c, c');
    } else {
      NothingStreams(c);
      hide Inv;
      match op
      case OpBegin(u, g, a, p) =>
        var t := BeginTurn(c, u, g, a, p).value;
        OpenedGenerations(c, c', [t.user, t.assistant], g);
      case OpRegenerate(t, g, a) => OpenedGenerations(c, c', [Regenerate(c, t, g, a).value.assistant], g);
    }
  }

  lemma WritingKeepsGenerations(c: Conversation, c': Conversation, op: Op, encode: Body -> nat)
    requires GenerationsInv(c) && Step(c, c', op, encode) && Applied(c, op, encode).Ok?
    requires op.OpDelta? || op.OpToolRun? || op.OpApproval? || op.OpCollaborate?
    ensures GenerationsInv(c')
  {
    hide GenerationsInv, Appended;
    var sequence := Latest(c.ledger.rows) + 1;
    match op
    case OpDelta(g, a, f, d, now) => hide *; DeltaKeepsGenerations(c, c', g, a, f, d, now, encode);
    case OpToolRun(g, a, run, now) => hide *; ToolRunKeepsGenerations(c, c', g, a, run, now, encode);
    case OpApproval(g, a, now) =>
      WrittenGenerations(c, c', [EventFor(g, a, ApprovalRequested, now, encode).(sequence := sequence)]);
    case OpCollaborate(g, m, now) =>
      WrittenGenerations(c, c', [EventFor(g, m, EventJournal.Collaboration, now, encode).(sequence := sequence)]);
  }

  lemma DeltaKeepsGenerations(c: Conversation, c': Conversation, generationId: Id, assistantId: Id, field: Field,
      delta: string, now: int, encode: Body -> nat)
    requires GenerationsInv(c) && Step(c, c', OpDelta(generationId, assistantId, field, delta, now), encode)
    ensures GenerationsInv(c')
  {
    hide GenerationsInv, Appended;
    if AppendDelta(c, generationId, assistantId, field, delta, now, encode).Ok? {
      var event := EventFor(generationId, assistantId, Delta(field, delta), now, encode);
      WrittenGenerations(c, c', [event.(sequence := Latest(c.ledger.rows) + 1)]);
    } else {
      SameGenerations(c, c');
    }
  }

  lemma ToolRunKeepsGenerations(c: Conversation, c': Conversation, generationId: Id, assistantId: Id, run: ToolRun,
      now: int, encode: Body -> nat)
    requires GenerationsInv(c) && Step(c, c', OpToolRun(generationId, assistantId, run, now), encode)
    ensures GenerationsInv(c')
  {
    hide GenerationsInv, Appended, ValidToolRun, RunMayFollow;
    if UpsertToolRun(c, generationId, assistantId, run, now, encode).Ok? {
      var event := EventFor(generationId, assistantId, ToolStatus(run.id, run.status), now, encode);
      WrittenGenerations(c, c', [event.(sequence := Latest(c.ledger.rows) + 1)]);
    } else {
      SameGenerations(c, c');
    }
  }

  lemma CompletionKeepsGenerations(c: Conversation, c': Conversation, generationId: Id, assistantId: Id,
      status: MessageStatus, errorCode: string, now: int, encode: Body -> nat)
    requires Inv(c) && GenerationsInv(c)
    requires CompleteTurn(c, generationId, assistantId, status, errorCode, now, encode) == Ok(c')
    ensures GenerationsInv(c')
  {
    var news := CompletionFacts(c, c', generationId, assistantId, status, errorCode, now, encode);
    hide *;
    CompletedGenerations(c, c', news, generationId);
  }

  lemma CompletionFacts(c: Conversation, c': Conversation, generationId: Id, assistantId: Id,
      status: MessageStatus, errorCode: string, now: int, encode: Body -> nat) returns (news: seq<Event>)
    requires Inv(c) && CompleteTurn(c, generationId, assistantId, status, errorCode, now, encode) == Ok(c')
    ensures SameHeads(c.messages, c'.messages) && c'.ledger.log == c.ledger.log + news
    ensures c.messages != [] && generationId != "" && Ended(c'.ledger.log, generationId)
    ensures var k := |c.messages| - 1;
      && c.messages[k].role == Assistant && c.messages[k].generationId == generationId
      && c'.messages[k].status != MessageStreaming
      && forall i :: 0 <= i < k ==> c'.messages[i] == c.messages[i]
    ensures forall e :: e in news ==> e.generationId == generationId
  {
    hide Inv, CompleteTurn, Ended, SettledRuns, HasRunning, CompletionBodies, EmitAll;
    var k, m, settled, events := CompletionWrites(c, generationId, assistantId, status, errorCode, now, encode);
    news := events;
    OwnedByLast(c, generationId, assistantId, status, errorCode, now, encode);
    LastEnds(c.ledger.log, news, generationId, m.toolRuns, status);
    assert c'.messages[k] == settled;
    forall e | e in news ensures e.generationId == generationId {
      var i :| 0 <= i < |news| && news[i] == e;
    }
  }

  lemma OwnedByLast(c: Conversation, generationId: Id, assistantId: Id, status: MessageStatus, errorCode: string,
      now: int, encode: Body -> nat)
    requires Inv(c) && CompleteTurn(c, generationId, assistantId, status, errorCode, now, encode).Ok?
    ensures c.phase == Generating && generationId == c.generationId && assistantId == c.activeAssistant
    ensures c.messages != [] && generationId != ""
    ensures var m := c.messages[|c.messages| - 1]; m.role == Assistant && m.generationId == generationId
  {
    hide EmitAll, CompletionBodies;
    StreamsLast(c);
  }

  lemma StreamsLast(c: Conversation)
    requires Inv(c) && c.phase == Generating
    ensures c.messages != [] && c.generationId != ""
    ensures var m := c.messages[|c.messages| - 1]; m.role == Assistant && m.generationId == c.generationId
  {
  }

  lemma {:induction false} RunKeepsGenerations(run: seq<Conversation>, ops: seq<Op>, encode: Body -> nat, i: nat)
    requires IsRun(run, ops, encode) && i < |run|
    ensures GenerationsInv(run[i])
  {
    hide *;
    BeginsStarted(run, ops, encode);
    if i == 0 {
      StartedGenerations(run[0]);
    } else {
      RunKeepsGenerations(run, ops, encode, i - 1);
      RunKeepsInv(run, ops, encode, i - 1);
      StepOf(run, ops, encode, i - 1);
      StepKeepsGenerations(run[i - 1], run[i], ops[i - 1], encode);
    }
  }

  lemma BeginsStarted(run: seq<Conversation>, ops: seq<Op>, encode: Body -> nat)
    requires IsRun(run, ops, encode)
    ensures |run| == |ops| + 1 && Started(run[0])
  {
  }

  lemma StepOf(run: seq<Conversation>, ops: seq<Op>, encode: Body -> nat, i: nat)
    requires IsRun(run, ops, encode) && i + 1 < |run|
    ensures |ops| == |run| - 1 && Step(run[i], run[i + 1], ops[i], encode)
  {
  }

  /** What the state request reports: the generation has an answer that is over. */
  predicate Settled(c: Conversation, generationId: Id) {
    var k := AssistantOf(c.messages, generationId);
    k < |c.messages| && c.messages[k].status != MessageStreaming
  }

  /** A generation is reported over exactly when its terminal event is in the
    * history. */
  lemma SettledIffEnded(c: Conversation, generationId: Id)
    requires GenerationsInv(c) && generationId != ""
    ensures Settled(c, generationId) <==> Ended(c.ledger.log, generationId)
  {
    AssistantOfIs(c.messages, generationId);
    var k := AssistantOf(c.messages, generationId);
    if k < |c.messages| {
      assert IsAnswer(c.messages[k]);
    }
    var log := c.ledger.log;
    if Ended(log, generationId) {
      var e :| 0 <= e < |log| && IsTerminal(log[e].body) && log[e].generationId == generationId;
      assert log[e] in log;
      assert HasAnswer(c.messages, generationId);
    }
  }

  // ----- the tool runs, as the journal told them -----

  /** The last status journalled for a run of a message. */
  function LastStatus(log: seq<Event>, messageId: Id, runId: Id): Option<RunStatus> {
    if log == [] then None
    else
      var e := log[|log| - 1];
      if e.messageId == messageId && e.body.ToolStatus? && e.body.runId == runId then Some(e.body.status)
      else LastStatus(log[..|log| - 1], messageId, runId)
  }

  function StatusIn(runs: seq<ToolRun>, id: Id): Option<RunStatus> {
    var r := RunIndex(runs, id);
    if r < |runs| then Some(runs[r].status) else None
  }

  lemma {:induction false} LastStatusConcat(a: seq<Event>, b: seq<Event>, messageId: Id, runId: Id)
    ensures LastStatus(a + b, messageId, runId)
      == if LastStatus(b, messageId, runId).Some? then LastStatus(b, messageId, runId) else LastStatus(a, messageId, runId)
  {
    if b == [] {
      assert a + b == a;
    } else {
      var n := |b| - 1;
      assert (a + b)[..|a| + n] == a + b[..n] && (a + b)[|a| + n] == b[n];
      LastStatusConcat(a, b[..n], messageId, runId);
    }
  }

  lemma {:induction false} NoStatus(log: seq<Event>, messageId: Id, runId: Id)
    requires forall e :: e in log && e.body.ToolStatus? ==> e.messageId != messageId
    ensures LastStatus(log, messageId, runId) == None
  {
    if log != [] {
      NoStatus(log[..|log| - 1], messageId, runId);
    }
  }

  /** The stored runs of a message are distinct, and the status of each is the
    * last one journalled for it; no other run was journalled. */
  ghost predicate ToolsTold(m: Message, log: seq<Event>) {
    DistinctRuns(m.toolRuns) && forall id :: LastStatus(log, m.id, id) == StatusIn(m.toolRuns, id)
  }

  ghost predicate StatusesStored(c: Conversation) {
    forall e :: e in c.ledger.log && e.body.ToolStatus? ==> IndexOf(c.messages, e.messageId) < |c.messages|
  }

  ghost predicate ToolsInv(c: Conversation, start: Conversation) {
    && |start.messages| <= |c.messages| && StatusesStored(c)
    && forall i :: |start.messages| <= i < |c.messages| ==> ToolsTold(c.messages[i], c.ledger.log)
  }

  lemma SameIdsSameIndex(messages: seq<Message>, messages': seq<Message>, id: Id)
    requires |messages| <= |messages'| && forall i :: 0 <= i < |messages| ==> messages'[i].id == messages[i].id
    requires IndexOf(messages, id) < |messages|
    ensures IndexOf(messages', id) < |messages'|
  {
    assert messages'[IndexOf(messages, id)].id == id;
  }

  /** A write whose statuses, if any, are the last message's. */
  lemma ToolsFollow(c: Conversation, c': Conversation, start: Conversation, news: seq<Event>)
    requires RowsInv(c) && ToolsInv(c, start) && c.messages != [] && |c'.messages| == |c.messages|
    requires c'.ledger.log == c.ledger.log + news
    requires var k := |c.messages| - 1;
      && (forall i :: 0 <= i < k ==> c'.messages[i] == c.messages[i]) && c'.messages[k].id == c.messages[k].id
      && (forall e :: e in news && e.body.ToolStatus? ==> e.messageId == c.messages[k].id)
      && (|start.messages| <= k ==> ToolsTold(c'.messages[k], c'.ledger.log))
    ensures ToolsInv(c', start)
  {
    var k := |c.messages| - 1;
    assert StatusesStored(c') by {
      forall e | e in c'.ledger.log && e.body.ToolStatus? ensures IndexOf(c'.messages, e.messageId) < |c'.messages| {
        if e in news {
          assert c'.messages[k].id == e.messageId;
        } else {
          SameIdsSameIndex(c.messages, c'.messages, e.messageId);
        }
      }
    }
    forall i | |start.messages| <= i < k ensures ToolsTold(c'.messages[i], c'.ledger.log) {
      UntouchedTools(c.messages[i], c.ledger.log, news);
    }
  }

  lemma UntouchedTools(m: Message, log: seq<Event>, news: seq<Event>)
    requires ToolsTold(m, log) && forall e :: e in news && e.body.ToolStatus? ==> e.messageId != m.id
    ensures ToolsTold(m, log + news)
  {
    forall id ensures LastStatus(log + news, m.id, id) == StatusIn(m.toolRuns, id) {
      LastStatusConcat(log, news, m.id, id);
      NoStatus(news, m.id, id);
    }
  }

  lemma RetoldTools(m: Message, m': Message, log: seq<Event>, news: seq<Event>)
    requires ToolsTold(m, log) && m'.id == m.id && DistinctRuns(m'.toolRuns)
    requires forall id ::
      StatusIn(m'.toolRuns, id)
        == if LastStatus(news, m.id, id).Some? then LastStatus(news, m.id, id) else StatusIn(m.toolRuns, id)
    ensures ToolsTold(m', log + news)
  {
    forall id ensures LastStatus(log + news, m'.id, id) == StatusIn(m'.toolRuns, id) {
      LastStatusConcat(log, news, m.id, id);
    }
  }

  lemma ReportedStatus(before: seq<ToolRun>, after: seq<ToolRun>, run: ToolRun, id: Id)
    requires DistinctRuns(before) && Reported(before, after, run)
    ensures StatusIn(after, id) == if id == run.id then Some(run.status) else StatusIn(before, id)
  {
    var r := RunIndex(after, id);
    if id == run.id {
      var i :| 0 <= i < |after| && after[i].id == run.id;
      assert r < |after|;
    } else {
      var b := RunIndex(before, id);
      if b < |before| {
        assert after[b] == before[b];
        assert r < |after| && after[r].id == after[b].id;
      } else if r < |after| {
        NewRunsAreReported(before, after, run, r);
      }
    }
  }

  lemma NewRunsAreReported(before: seq<ToolRun>, after: seq<ToolRun>, run: ToolRun, r: nat)
    requires DistinctRuns(before) && Reported(before, after, run) && r < |after| && after[r].id != run.id
    ensures r < |before| && before[r] == after[r]
  {
    var i :| 0 <= i < |after| && after[i].id == run.id;
    assert i < |before| ==> before[i].id == run.id;
  }

  lemma ToolRunKeepsTools(c: Conversation, c': Conversation, start: Conversation, generationId: Id, assistantId: Id,
      run: ToolRun, now: int, encode: Body -> nat)
    requires Inv(c) && ToolsInv(c, start)
    requires |start.messages| < |c.messages|
    requires UpsertToolRun(c, generationId, assistantId, run, now, encode) == Ok(c')
    ensures ToolsInv(c', start)
  {
    assert Owns(c, generationId, assistantId);
    hide Inv, ToolsTold, UpsertToolRun, Reported, StatusesStored;
    ToolRunNews(c, c', start, run, now, encode);
    InvHasRows(c);
    ToolsFollow(c, c', start, [StatusEvent(c, run, now, encode)]);
  }

  function StatusEvent(c: Conversation, run: ToolRun, now: int, encode: Body -> nat): Event {
    Event(|c.ledger.log| + 1, c.generationId, c.activeAssistant, ToolStatus(run.id, run.status),
          encode(ToolStatus(run.id, run.status)), now)
  }

  lemma InvHasRows(c: Conversation)
    requires Inv(c)
    ensures RowsInv(c)
  {
  }

  lemma ToolRunNews(c: Conversation, c': Conversation, start: Conversation, run: ToolRun, now: int, encode: Body -> nat)
    requires Inv(c) && ToolsInv(c, start) && |start.messages| < |c.messages| && c.phase == Generating
    requires UpsertToolRun(c, c.generationId, c.activeAssistant, run, now, encode) == Ok(c')
    ensures c.messages != [] && |c'.messages| == |c.messages|
    ensures var k := |c.messages| - 1;
      && (forall i :: 0 <= i < k ==> c'.messages[i] == c.messages[i]) && c'.messages[k].id == c.messages[k].id
      && c.messages[k].id == c.activeAssistant
      && c'.ledger.log == c.ledger.log + [StatusEvent(c, run, now, encode)]
      && ToolsTold(c'.messages[k], c'.ledger.log)
  {
    ActiveStreams(c);
    var k := |c.messages| - 1;
    assert ToolsTold(c.messages[k], c.ledger.log);
    hide Inv, UpsertToolRun, StatusesStored;
    ToolRunIsStored(c, run, now, encode);
    var m, m', e := c.messages[k], c'.messages[k], StatusEvent(c, run, now, encode);
    hide Reported, ToolsTold, StatusIn, LastStatus, ToolsInv, DistinctRuns;
    ReportedStatuses(m, m', run, e);
    assert DistinctRuns(m'.toolRuns) by { ReportedIsDistinct(m.toolRuns, m'.toolRuns, run); }
    RetoldTools(m, m', c.ledger.log, [e]);
  }

  lemma ReportedStatuses(m: Message, m': Message, run: ToolRun, e: Event)
    requires DistinctRuns(m.toolRuns) && Reported(m.toolRuns, m'.toolRuns, run)
    requires e.messageId == m.id && e.body == ToolStatus(run.id, run.status)
    ensures forall id ::
      StatusIn(m'.toolRuns, id)
        == if LastStatus([e], m.id, id).Some? then LastStatus([e], m.id, id) else StatusIn(m.toolRuns, id)
  {
    forall id ensures StatusIn(m'.toolRuns, id)
      == if LastStatus([e], m.id, id).Some? then LastStatus([e], m.id, id) else StatusIn(m.toolRuns, id)
    {
      ReportedStatus(m.toolRuns, m'.toolRuns, run, id);
      assert LastStatus([e][..0], m.id, id) == None;
    }
  }

  lemma ReportedIsDistinct(before: seq<ToolRun>, after: seq<ToolRun>, run: ToolRun)
    requires Reported(before, after, run)
    ensures DistinctRuns(after)
  {
  }

  // what a completion tells

  function LastIn(bodies: seq<Body>, runId: Id): Option<RunStatus> {
    if bodies == [] then None
    else
      var b := bodies[|bodies| - 1];
      if b.ToolStatus? && b.runId == runId then Some(b.status) else LastIn(bodies[..|bodies| - 1], runId)
  }

  lemma {:induction false} LastInConcat(a: seq<Body>, b: seq<Body>, runId: Id)
    ensures LastIn(a + b, runId) == if LastIn(b, runId).Some? then LastIn(b, runId) else LastIn(a, runId)
  {
    if b == [] {
      assert a + b == a;
    } else {
      var n := |b| - 1;
      assert (a + b)[..|a| + n] == a + b[..n] && (a + b)[|a| + n] == b[n];
      LastInConcat(a, b[..n], runId);
    }
  }

  lemma {:induction false} StampedTells(news: seq<Event>, generationId: Id, messageId: Id, bodies: seq<Body>, runId: Id)
    requires StampedAs(news, generationId, messageId, bodies)
    ensures LastStatus(news, messageId, runId) == LastIn(bodies, runId)
  {
    if news != [] {
      var n := |news| - 1;
      StampedTells(news[..n], generationId, messageId, bodies[..n], runId);
    }
  }

  function EndStatus(status: MessageStatus): RunStatus {
    if status == MessageStopped then RunCancelled else RunFailed
  }

  /** Each running run is told its end, every other one is left alone. */
  lemma {:induction false} SettlementTells(runs: seq<ToolRun>, status: MessageStatus, id: Id)
    requires DistinctRuns(runs)
    ensures LastIn(SettlementBodies(runs, status), id)
      == if StatusIn(runs, id) == Some(Running) then Some(EndStatus(status)) else None
  {
    if runs != [] {
      var first, rest := runs[0], runs[1..];
      assert DistinctRuns(rest) by {
        assert forall i :: 0 <= i < |rest| ==> rest[i] == runs[i + 1];
      }
      SettlementTells(rest, status, id);
      var told := if first.status == Running then [ToolStatus(first.id, EndStatus(status))] else [];
      assert SettlementBodies(runs, status) == told + SettlementBodies(rest, status);
      LastInConcat(told, SettlementBodies(rest, status), id);
      assert LastIn(told[..0], id) == None;
      FirstStatus(runs, id);
    }
  }

  lemma FirstStatus(runs: seq<ToolRun>, id: Id)
    requires runs != [] && DistinctRuns(runs)
    ensures StatusIn(runs, id) == if runs[0].id == id then Some(runs[0].status) else StatusIn(runs[1..], id)
    ensures runs[0].id == id ==> StatusIn(runs[1..], id) == None
  {
    var rest := runs[1..];
    var r := RunIndex(rest, id);
    assert r < |rest| ==> rest[r] == runs[r + 1];
  }

  lemma CompletionTells(runs: seq<ToolRun>, status: MessageStatus, id: Id)
    requires DistinctRuns(runs)
    ensures LastIn(CompletionBodies(runs, status), id)
      == if StatusIn(runs, id) == Some(Running) then Some(EndStatus(status)) else None
  {
    var end := (if status == MessageComplete then [Usage] else []) + [TerminalBody(status)];
    assert CompletionBodies(runs, status) == SettlementBodies(runs, status) + end;
    LastInConcat(SettlementBodies(runs, status), end, id);
    SettlementTells(runs, status, id);
    assert LastIn(end, id) == None by {
      assert end[..|end| - 1] == if status == MessageComplete then [Usage] else [];
      assert LastIn([Usage][..0], id) == None;
    }
  }

  lemma SettledStatus(runs: seq<ToolRun>, settled: seq<ToolRun>, status: MessageStatus, id: Id)
    requires |settled| == |runs|
    requires forall r :: 0 <= r < |runs| ==>
      && settled[r].id == runs[r].id
      && settled[r].status == if runs[r].status == Running then EndStatus(status) else runs[r].status
    ensures StatusIn(settled, id)
      == if StatusIn(runs, id) == Some(Running) then Some(EndStatus(status)) else StatusIn(runs, id)
  {
    var a, b := RunIndex(runs, id), RunIndex(settled, id);
    assert a < |runs| ==> settled[a].id == id;
    assert b < |runs| ==> runs[b].id == id;
  }

  lemma CompletionKeepsTools(c: Conversation, c': Conversation, start: Conversation, generationId: Id, assistantId: Id,
      status: MessageStatus, errorCode: string, now: int, encode: Body -> nat)
    requires Inv(c) && ToolsInv(c, start) && |start.messages| < |c.messages|
    requires CompleteTurn(c, generationId, assistantId, status, errorCode, now, encode) == Ok(c')
    ensures ToolsInv(c', start)
  {
    hide Inv, CompleteTurn, ToolsTold, StatusesStored, CompletionBodies, EmitAll, SettledRuns;
    OwnedByLast(c, generationId, assistantId, status, errorCode, now, encode);
    ActiveStreams(c);
    InvHasRows(c);
    var k, m, settled, news := CompletionWrites(c, generationId, assistantId, status, errorCode, now, encode);
    assert m.id == assistantId;
    SettledTold(m, settled, c.ledger.log, news, generationId, status, errorCode, now);
    forall e | e in news ensures e.messageId == m.id {
      var i :| 0 <= i < |news| && news[i] == e;
    }
    ToolsFollow(c, c', start, news);
  }

  lemma SettledTold(m: Message, settled: Message, log: seq<Event>, news: seq<Event>, generationId: Id,
      status: MessageStatus, errorCode: string, now: int)
    requires ToolsTold(m, log) && StampedAs(news, generationId, m.id, CompletionBodies(m.toolRuns, status))
    requires settled == m.(status := status, errorCode := errorCode, revision := m.revision + 1,
                           toolRuns := SettledRuns(m.toolRuns, status, errorCode, now))
    ensures ToolsTold(settled, log + news)
  {
    var runs, after := m.toolRuns, settled.toolRuns;
    assert DistinctRuns(after) && DistinctRuns(runs);
    hide ToolsTold, CompletionBodies, DistinctRuns;
    forall id ensures StatusIn(after, id)
      == if LastStatus(news, m.id, id).Some? then LastStatus(news, m.id, id) else StatusIn(runs, id)
    {
      StampedTells(news, generationId, m.id, CompletionBodies(runs, status), id);
      CompletionTells(runs, status, id);
      SettledStatus(runs, after, status, id);
    }
    hide SettledRuns, StatusIn, LastStatus;
    RetoldTools(m, settled, log, news);
  }

  // over runs

  /** Opening operations add messages without runs under unused ids. */
  lemma OpenedTools(c: Conversation, c': Conversation, start: Conversation)
    requires ToolsInv(c, start) && c'.ledger == c.ledger && |c.messages| <= |c'.messages|
    requires forall i :: 0 <= i < |c.messages| ==> c'.messages[i] == c.messages[i]
    requires forall i :: |c.messages| <= i < |c'.messages| ==>
      c'.messages[i].toolRuns == [] && IndexOf(c.messages, c'.messages[i].id) == |c.messages|
    ensures ToolsInv(c', start)
  {
    assert StatusesStored(c') by {
      forall e | e in c.ledger.log && e.body.ToolStatus? ensures IndexOf(c'.messages, e.messageId) < |c'.messages| {
        SameIdsSameIndex(c.messages, c'.messages, e.messageId);
      }
    }
    forall i | |c.messages| <= i < |c'.messages| ensures ToolsTold(c'.messages[i], c'.ledger.log) {
      forall id ensures LastStatus(c.ledger.log, c'.messages[i].id, id) == None {
        NoStatus(c.ledger.log, c'.messages[i].id, id);
      }
    }
  }

  lemma OpeningKeepsTools(c: Conversation, c': Conversation, op: Op, encode: Body -> nat, start: Conversation)
    requires (op.OpBegin? || op.OpRegenerate?) && Step(c, c', op, encode) && ToolsInv(c, start)
    ensures ToolsInv(c', start)
  {
    hide ToolsInv, Fresh;
    OpenedTools(c, c', start);
  }

  lemma QuietKeepsTools(c: Conversation, c': Conversation, start: Conversation, event: Event)
    requires ToolsInv(c, start) && !event.body.ToolStatus? && c'.ledger.log == c.ledger.log + [event]
    requires |c'.messages| == |c.messages| && forall i :: 0 <= i < |c.messages| ==>
      c'.messages[i].id == c.messages[i].id && c'.messages[i].toolRuns == c.messages[i].toolRuns
    ensures ToolsInv(c', start)
  {
    assert StatusesStored(c') by {
      forall e | e in c'.ledger.log && e.body.ToolStatus? ensures IndexOf(c'.messages, e.messageId) < |c'.messages| {
        SameIdsSameIndex(c.messages, c'.messages, e.messageId);
      }
    }
    forall i | |start.messages| <= i < |c.messages| ensures ToolsTold(c'.messages[i], c'.ledger.log) {
      UntouchedTools(c.messages[i], c.ledger.log, [event]);
    }
  }

  lemma WritingKeepsTools(c: Conversation, c': Conversation, op: Op, encode: Body -> nat, start: Conversation)
    requires ToolsInv(c, start) && Step(c, c', op, encode) && Applied(c, op, encode).Ok?
    requires op.OpDelta? || op.OpApproval? || op.OpCollaborate?
    ensures ToolsInv(c', start)
  {
    hide ToolsInv, Appended;
    var sequence := Latest(c.ledger.rows) + 1;
    match op
    case OpDelta(g, a, f, d, now) =>
      QuietKeepsTools(c, c', start, EventFor(g, a, Delta(f, d), now, encode).(sequence := sequence));
    case OpApproval(g, a, now) =>
      QuietKeepsTools(c, c', start, EventFor(g, a, ApprovalRequested, now, encode).(sequence := sequence));
    case OpCollaborate(g, m, now) =>
      QuietKeepsTools(c, c', start, EventFor(g, m, EventJournal.Collaboration, now, encode).(sequence := sequence));
  }

  /** What streams was opened in this run. */
  ghost predicate OpenedHere(c: Conversation, start: Conversation) {
    c.phase == Generating ==> |start.messages| < |c.messages|
  }

  lemma StepKeepsTools(c: Conversation, c': Conversation, op: Op, encode: Body -> nat, start: Conversation)
    requires Inv(c) && ToolsInv(c, start) && OpenedHere(c, start) && Step(c, c', op, encode)
    ensures ToolsInv(c', start)
  {
    hide Inv, ToolsInv, CompleteTurn, Appended;
    if Applied(c, op, encode).Err? || c' == c {
      assert c' == c;
    } else {
      match op
      case OpBegin(u, g, a, p) => hide *; OpeningKeepsTools(c, c', op, encode, start);
      case OpRegenerate(t, g, a) => hide *; OpeningKeepsTools(c, c', op, encode, start);
      case OpToolRun(g, a, run, now) =>
        assert Owns(c, g, a);
        hide UpsertToolRun;
        ToolRunKeepsTools(c, c', start, g, a, run, now, encode);
      case OpComplete(g, a, s, code, now) =>
        OwnedByLast(c, g, a, s, code, now, encode);
        CompletionKeepsTools(c, c', start, g, a, s, code, now, encode);
      case OpRecover(now) =>
        CompletionKeepsTools(c, c', start, c.generationId, c.activeAssistant, MessageStopped, "agent_restarted", now, encode);
      case _ => hide *; WritingKeepsTools(c, c', op, encode, start);
    }
  }

  lemma StepKeepsOpenedHere(c: Conversation, c': Conversation, op: Op, encode: Body -> nat, start: Conversation)
    requires Inv(c) && OpenedHere(c, start) && Step(c, c', op, encode) && |start.messages| <= |c.messages|
    requires Extends(c, c')
    ensures OpenedHere(c', start)
  {
    hide Inv, LedgerInv, Emit, EmitAll, Extends;
    if c'.phase == Generating && c.phase != Generating {
      assert op.OpBegin? || op.OpRegenerate?;
    }
  }

  /** Over every run: a message opened in it holds each tool run once, with the
    * status last journalled for it, and every run that was journalled. */
  lemma {:induction false} RunTellsTools(run: seq<Conversation>, ops: seq<Op>, encode: Body -> nat, i: nat)
    requires IsRun(run, ops, encode) && i < |run|
    ensures ToolsInv(run[i], run[0]) && OpenedHere(run[i], run[0])
  {
    hide *;
    BeginsStarted(run, ops, encode);
    if i == 0 {
      StartedTools(run[0]);
    } else {
      RunTellsTools(run, ops, encode, i - 1);
      RunKeepsInv(run, ops, encode, i - 1);
      RunStepExtends(run, ops, encode, i - 1);
      StepOf(run, ops, encode, i - 1);
      StepKeepsTools(run[i - 1], run[i], ops[i - 1], encode, run[0]);
      ToolsReach(run[i - 1], run[0]);
      StepKeepsOpenedHere(run[i - 1], run[i], ops[i - 1], encode, run[0]);
    }
  }

  lemma ToolsReach(c: Conversation, start: Conversation)
    requires ToolsInv(c, start)
    ensures |start.messages| <= |c.messages|
  {
  }

  lemma StartedTools(c: Conversation)
    requires Started(c)
    ensures ToolsInv(c, c) && OpenedHere(c, c)
  {
    StartedKeeps(c);
    hide Inv;
  }

  // ----- asking twice -----

  /** A question that was accepted once is replayed by every later state of the
    * run: the same question and answer come back and nothing changes.  Under its
    * id no other text is accepted. */
  lemma RetryIsReplayed(run: seq<Conversation>, ops: seq<Op>, encode: Body -> nat, i: nat, j: nat,
      generationId: Id, assistantId: Id, prompt: string)
    requires IsRun(run, ops, encode) && i < j < |run| && ops[i].OpBegin? && Applied(run[i], ops[i], encode).Ok?
    requires IndexOf(run[i].messages, ops[i].userId) == |run[i].messages|
    ensures var n := |run[i].messages|;
      && n + 1 < |run[j].messages| && run[j].messages[n].content == ops[i].prompt
      && run[j].messages[n].id == ops[i].userId && run[j].messages[n + 1].id == ops[i].assistant
      && BeginTurn(run[j], ops[i].userId, generationId, assistantId, ops[i].prompt)
         == Ok(Turn(run[j], run[j].messages[n], run[j].messages[n + 1], true))
    ensures prompt != ops[i].prompt && 0 < |prompt| <= MAXIMUM_PROMPT_BYTES ==>
      BeginTurn(run[j], ops[i].userId, generationId, assistantId, prompt) == Err(TurnError.Conflict)
  {
    hide *;
    BeginsStarted(run, ops, encode);
    StepOf(run, ops, encode, i);
    RunKeepsInv(run, ops, encode, i);
    RunKeepsInv(run, ops, encode, j);
    RunExtends(run, ops, encode, i + 1, j);
    RunKeepsGenerations(run, ops, encode, j);
    var (u, g, a, p) := (ops[i].userId, ops[i].generation, ops[i].assistant, ops[i].prompt);
    OpenedQuestion(run[i], run[i + 1], u, g, a, p, encode);
    QuestionStays(run[i + 1], run[j], |run[i].messages|, u, g, a, p);
    StoredIsReplayed(run[j], |run[i].messages|, u, g, a, p, generationId, assistantId, prompt);
  }

  ghost predicate QuestionAt(c: Conversation, n: nat, userId: Id, generationId: Id, assistantId: Id, prompt: string) {
    && n + 1 < |c.messages| && generationId != ""
    && (var q := c.messages[n];
        q.id == userId && q.role == User && q.content == prompt && q.generationId == generationId)
    && (var q := c.messages[n]; q.status == MessageComplete)
    && (var r := c.messages[n + 1]; r.id == assistantId && r.role == Assistant && r.generationId == generationId)
  }

  lemma OpenedQuestion(c: Conversation, c': Conversation, userId: Id, generationId: Id, assistantId: Id, prompt: string,
      encode: Body -> nat)
    requires Inv(c) && Step(c, c', OpBegin(userId, generationId, assistantId, prompt), encode)
    requires Applied(c, OpBegin(userId, generationId, assistantId, prompt), encode).Ok?
    requires IndexOf(c.messages, userId) == |c.messages|
    ensures QuestionAt(c', |c.messages|, userId, generationId, assistantId, prompt)
    ensures 0 < |prompt| <= MAXIMUM_PROMPT_BYTES
  {
    hide Inv;
    BeginTurnOpens(c, userId, generationId, assistantId, prompt);
  }

  lemma QuestionStays(c: Conversation, c': Conversation, n: nat, userId: Id, generationId: Id, assistantId: Id,
      prompt: string)
    requires QuestionAt(c, n, userId, generationId, assistantId, prompt) && Extends(c, c')
    ensures QuestionAt(c', n, userId, generationId, assistantId, prompt)
  {
    var news := c'.ledger.log[|c.ledger.log|..];
    assert GrewBy(c.messages[n], c'.messages[n], news) && GrewBy(c.messages[n + 1], c'.messages[n + 1], news);
  }

  lemma StoredIsReplayed(c: Conversation, n: nat, userId: Id, generationId: Id, assistantId: Id, prompt: string,
      otherGeneration: Id, otherAssistant: Id, other: string)
    requires Inv(c) && GenerationsInv(c) && QuestionAt(c, n, userId, generationId, assistantId, prompt)
    requires 0 < |prompt| <= MAXIMUM_PROMPT_BYTES
    ensures n + 1 < |c.messages| && c.messages[n].content == prompt
    ensures c.messages[n].id == userId && c.messages[n + 1].id == assistantId
    ensures BeginTurn(c, userId, otherGeneration, otherAssistant, prompt)
      == Ok(Turn(c, c.messages[n], c.messages[n + 1], true))
    ensures other != prompt && 0 < |other| <= MAXIMUM_PROMPT_BYTES ==>
      BeginTurn(c, userId, otherGeneration, otherAssistant, other) == Err(TurnError.Conflict)
  {
    AssistantOfIs(c.messages, generationId);
    var k := AssistantOf(c.messages, generationId);
    assert IsAnswer(c.messages[n + 1]);
    assert k < |c.messages| && IsAnswer(c.messages[k]);
    assert k == n + 1;
    assert IndexOf(c.messages, userId) == n;
    hide LedgerInv, StreamingInv, SettledInv, TerminalIsFinal;
  }
}
