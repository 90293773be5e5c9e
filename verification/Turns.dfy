/** The turn life cycle of one conversation: begin, regenerate, stream deltas
  * and tool runs, complete, recover after a restart, fork.  Every operation is
  * one transaction over the conversation row, its messages and its journal; a
  * failing operation leaves all of them as they were.
  */
module ConversationTurns {
  import opened Wrappers
  import opened EventJournal

  datatype Role = User | Assistant

  datatype MessageStatus = MessageComplete | MessageStreaming | MessageStopped | MessageFailed

  datatype ConversationPhase = Idle | Generating | GenerationFailed

  datatype ToolRun = ToolRun(
    id: Id, tool: string, arguments: string, startedAt: int, finishedAt: Option<int>,
    status: RunStatus, output: string, errorCode: string)

  datatype Message = Message(
    id: Id, revision: nat, sequence: nat, role: Role, status: MessageStatus, errorCode: string,
    content: string, reasoning: string, toolRuns: seq<ToolRun>, generationId: Id)

  /** The journal rows still stored, and every event ever committed. */
  datatype Ledger = Ledger(rows: seq<Event>, log: seq<Event>)

  datatype Conversation = Conversation(
    phase: ConversationPhase, generationId: Id, activeAssistant: Id,
    lastMessageSequence: nat, messageCount: nat, messages: seq<Message>, ledger: Ledger)

  datatype TurnError = BadInput | Conflict | GenerationActive | MissingRow | Exhausted | Storage

  datatype Turn = Turn(conversation: Conversation, user: Message, assistant: Message, replayed: bool)

  const MAXIMUM_DELTA_BYTES: nat := 8192
  const MAXIMUM_ASSISTANT_BYTES: nat := 1048576
  const MAXIMUM_PROMPT_BYTES: nat := 32768
  const MAXIMUM_TOOL_RUNS: nat := 200

  // ----- specification functions -----

  function IndexOf(messages: seq<Message>, id: Id): (k: nat)
    ensures k <= |messages|
    ensures k < |messages| ==> messages[k].id == id
    ensures forall j :: 0 <= j < k ==> messages[j].id != id
  {
    if messages == [] || messages[0].id == id then 0 else 1 + IndexOf(messages[1..], id)
  }

  /** The newest assistant message of a generation (|messages| when absent). */
  function AssistantOf(messages: seq<Message>, generationId: Id): (k: nat)
    ensures k <= |messages|
  {
    if messages == [] then 0
    else
      var n := |messages| - 1;
      if messages[n].role == Assistant && messages[n].generationId == generationId then n
      else
        var k := AssistantOf(messages[..n], generationId);
        if k == n then n + 1 else k
  }

  function RunIndex(runs: seq<ToolRun>, id: Id): (k: nat)
    ensures k <= |runs|
    ensures k < |runs| ==> runs[k].id == id
    ensures forall j :: 0 <= j < k ==> runs[j].id != id
  {
    if runs == [] || runs[0].id == id then 0 else 1 + RunIndex(runs[1..], id)
  }

  /** Blank content: only code points that Go's unicode.IsSpace accepts. */
  predicate IsBlank(s: string) {
    forall c :: c in s ==>
      c in {' ', '\t', '\n', '\U{0B}', '\U{0C}', '\r', '\U{85}', '\U{A0}', '\U{1680}', '\U{2028}', '\U{2029}',
            '\U{202F}', '\U{205F}', '\U{3000}'} || '\U{2000}' <= c <= '\U{200A}'
  }

  function EventFor(generationId: Id, messageId: Id, body: Body, now: int, encode: Body -> nat): Event {
    Event(0, generationId, messageId, body, encode(body), now)
  }

  function Emit(l: Ledger, event: Event): Result<Ledger, TurnError> {
    if event.payloadLength > MAXIMUM_EVENT_PAYLOAD then Err(BadInput)
    else if Latest(l.rows) + 1 > MAX_SAFE_INTEGER then Err(Exhausted)
    else Ok(Ledger(Appended(l.rows, event), l.log + [event.(sequence := Latest(l.rows) + 1)]))
  }

  function EmitAll(l: Ledger, generationId: Id, messageId: Id, bodies: seq<Body>, now: int, encode: Body -> nat)
    : Result<Ledger, TurnError>
    decreases |bodies|
  {
    if bodies == [] then Ok(l)
    else
      match Emit(l, EventFor(generationId, messageId, bodies[0], now, encode))
      case Err(e) => Err(e)
      case Ok(l1) => EmitAll(l1, generationId, messageId, bodies[1..], now, encode)
  }

  function NewUser(c: Conversation, id: Id, generationId: Id, prompt: string): Message {
    Message(id, 1, c.lastMessageSequence + 1, User, MessageComplete, "", prompt, "", [], generationId)
  }

  function NewAssistant(sequence: nat, id: Id, generationId: Id): Message {
    Message(id, 1, sequence, Assistant, MessageStreaming, "", "", "", [], generationId)
  }

  function BeginTurn(c: Conversation, userId: Id, generationId: Id, assistantId: Id, prompt: string)
    : Result<Turn, TurnError>
  {
    if prompt == "" || |prompt| > MAXIMUM_PROMPT_BYTES then Err(BadInput)
    else
      var k := IndexOf(c.messages, userId);
      if k < |c.messages| then
        var existing := c.messages[k];
        var a := AssistantOf(c.messages, existing.generationId);
        if existing.role != User || existing.content != prompt then Err(Conflict)
        else if a == |c.messages| then Err(MissingRow)
        else Ok(Turn(c, existing, c.messages[a], true))
      else if c.phase == Generating then Err(GenerationActive)
      else if assistantId == userId || IndexOf(c.messages, assistantId) < |c.messages| then Err(Storage)
      else
        var user := NewUser(c, userId, generationId, prompt);
        var assistant := NewAssistant(c.lastMessageSequence + 2, assistantId, generationId);
        Ok(Turn(c.(phase := Generating, generationId := generationId, activeAssistant := assistantId,
                   lastMessageSequence := c.lastMessageSequence + 2, messageCount := c.messageCount + 2,
                   messages := c.messages + [user, assistant]),
                user, assistant, false))
  }

  /** The newest user message before position k (k itself when there is none). */
  function UserBefore(messages: seq<Message>, k: nat): (u: nat)
    requires k <= |messages|
    ensures u <= k
    ensures u < k ==> messages[u].role == User
  {
    if k == 0 then 0
    else if messages[k - 1].role == User then k - 1
    else
      var u := UserBefore(messages, k - 1);
      if u == k - 1 then k else u
  }

  function Regenerate(c: Conversation, targetId: Id, generationId: Id, assistantId: Id): Result<Turn, TurnError> {
    if c.phase == Generating then Err(GenerationActive)
    else
      var k := IndexOf(c.messages, targetId);
      if k == |c.messages| then Err(MissingRow)
      else if c.messages[k].role != Assistant || c.messages[k].status == MessageStreaming then Err(BadInput)
      else if UserBefore(c.messages, k) == k then Err(BadInput)
      else if IndexOf(c.messages, assistantId) < |c.messages| then Err(Storage)
      else
        var user := c.messages[UserBefore(c.messages, k)];
        var assistant := NewAssistant(c.lastMessageSequence + 1, assistantId, generationId);
        Ok(Turn(c.(phase := Generating, generationId := generationId, activeAssistant := assistantId,
                   lastMessageSequence := c.lastMessageSequence + 1, messageCount := c.messageCount + 1,
                   messages := c.messages + [assistant]),
                user, assistant, false))
  }

  /** The guard shared by every write of a running generation. */
  predicate Owns(c: Conversation, generationId: Id, assistantId: Id) {
    c.phase == Generating && c.generationId == generationId && c.activeAssistant == assistantId
  }

  function FieldText(m: Message, field: Field): string {
    if field == Text then m.content else m.reasoning
  }

  function WithFieldText(m: Message, field: Field, text: string): Message {
    if field == Text then m.(content := text) else m.(reasoning := text)
  }

  function AppendDelta(
    c: Conversation, generationId: Id, assistantId: Id, field: Field, delta: string, now: int, encode: Body -> nat)
    : Result<Conversation, TurnError>
  {
    if delta == "" || |delta| > MAXIMUM_DELTA_BYTES then Err(BadInput)
    else if !Owns(c, generationId, assistantId) then Err(Conflict)
    else
      var k := IndexOf(c.messages, assistantId);
      if k == |c.messages| then Err(MissingRow)
      else
        var m := c.messages[k];
        if m.status != MessageStreaming || |FieldText(m, field)| + |delta| > MAXIMUM_ASSISTANT_BYTES
           || m.revision == MAX_SAFE_INTEGER then Err(Conflict)
        else
          var grown := WithFieldText(m, field, FieldText(m, field) + delta).(revision := m.revision + 1);
          match Emit(c.ledger, EventFor(generationId, assistantId, Delta(field, delta), now, encode))
          case Err(e) => Err(e)
          case Ok(l) => Ok(c.(messages := c.messages[k := grown], ledger := l))
  }

  predicate ValidToolRun(run: ToolRun) {
    && run.id != "" && |run.id| <= 256 && |run.errorCode| <= 80
    && (run.status != Running <==> run.finishedAt.Some?)
    && (run.finishedAt.Some? ==> run.finishedAt.value >= run.startedAt)
  }

  /** A run is created running, then reports growing output, then ends once. */
  predicate RunMayFollow(previous: ToolRun, run: ToolRun) {
    && previous.tool == run.tool && previous.arguments == run.arguments && previous.startedAt == run.startedAt
    && previous.status == Running && !(run.status == Running && |run.output| <= |previous.output|)
  }

  function UpsertToolRun(
    c: Conversation, generationId: Id, assistantId: Id, run: ToolRun, now: int, encode: Body -> nat)
    : Result<Conversation, TurnError>
  {
    if !ValidToolRun(run) then Err(BadInput)
    else if !Owns(c, generationId, assistantId) then Err(Conflict)
    else
      var k := IndexOf(c.messages, assistantId);
      if k == |c.messages| then Err(MissingRow)
      else
        var m := c.messages[k];
        var r := RunIndex(m.toolRuns, run.id);
        if m.status != MessageStreaming || m.revision == MAX_SAFE_INTEGER then Err(Conflict)
        else if r == |m.toolRuns| && (|m.toolRuns| >= MAXIMUM_TOOL_RUNS || run.status != Running) then Err(BadInput)
        else if r < |m.toolRuns| && !RunMayFollow(m.toolRuns[r], run) then Err(Conflict)
        else
          var runs := if r == |m.toolRuns| then m.toolRuns + [run] else m.toolRuns[r := run];
          match Emit(c.ledger, EventFor(generationId, assistantId, ToolStatus(run.id, run.status), now, encode))
          case Err(e) => Err(e)
          case Ok(l) =>
            Ok(c.(messages := c.messages[k := m.(toolRuns := runs, revision := m.revision + 1)], ledger := l))
  }

  function RequestApproval(c: Conversation, generationId: Id, assistantId: Id, now: int, encode: Body -> nat)
    : Result<Conversation, TurnError>
  {
    if !Owns(c, generationId, assistantId) then Err(Conflict)
    else
      match Emit(c.ledger, EventFor(generationId, assistantId, ApprovalRequested, now, encode))
      case Err(e) => Err(e)
      case Ok(l) => Ok(c.(ledger := l))
  }

  /** Plan, todo, goal and subagent updates: not guarded by the generation. */
  function Collaborate(c: Conversation, generationId: Id, messageId: Id, now: int, encode: Body -> nat)
    : Result<Conversation, TurnError>
  {
    match Emit(c.ledger, EventFor(generationId, messageId, EventJournal.Collaboration, now, encode))
    case Err(e) => Err(e)
    case Ok(l) => Ok(c.(ledger := l))
  }

  function SettledRun(run: ToolRun, status: MessageStatus, errorCode: string, now: int): ToolRun {
    if run.status != Running then run
    else if status == MessageStopped then
      run.(finishedAt := Some(now), status := RunCancelled, errorCode := "cancelled")
    else
      run.(finishedAt := Some(now), status := RunFailed,
           errorCode := if errorCode != "" then errorCode else "generation_failed")
  }

  function SettledRuns(runs: seq<ToolRun>, status: MessageStatus, errorCode: string, now: int): (settled: seq<ToolRun>)
    ensures |settled| == |runs|
    ensures forall i :: 0 <= i < |runs| ==> settled[i] == SettledRun(runs[i], status, errorCode, now)
  {
    seq(|runs|, i requires 0 <= i < |runs| => SettledRun(runs[i], status, errorCode, now))
  }

  /** One tool-status event per run that the completion had to settle. */
  function SettlementBodies(runs: seq<ToolRun>, status: MessageStatus): seq<Body> {
    if runs == [] then []
    else
      (if runs[0].status == Running
       then [ToolStatus(runs[0].id, if status == MessageStopped then RunCancelled else RunFailed)]
       else [])
      + SettlementBodies(runs[1..], status)
  }

  function TerminalBody(status: MessageStatus): Body {
    if status == MessageStopped then EventJournal.Cancelled
    else if status == MessageFailed then EventJournal.Failed
    else EventJournal.Completed
  }

  function CompletionBodies(runs: seq<ToolRun>, status: MessageStatus): seq<Body> {
    SettlementBodies(runs, status) + (if status == MessageComplete then [Usage] else []) + [TerminalBody(status)]
  }

  predicate HasRunning(runs: seq<ToolRun>) {
    exists i :: 0 <= i < |runs| && runs[i].status == Running
  }

  function CompleteTurn(
    c: Conversation, generationId: Id, assistantId: Id, status: MessageStatus, errorCode: string, now: int,
    encode: Body -> nat)
    : Result<Conversation, TurnError>
  {
    if status == MessageStreaming || |errorCode| > 80 then Err(BadInput)
    else if !Owns(c, generationId, assistantId) then Err(Conflict)
    else
      var k := IndexOf(c.messages, assistantId);
      if k == |c.messages| then Err(MissingRow)
      else
        var m := c.messages[k];
        if m.status != MessageStreaming || m.revision == MAX_SAFE_INTEGER
           || (status == MessageComplete && IsBlank(m.content) && m.toolRuns == [])
           || (status == MessageComplete && HasRunning(m.toolRuns)) then Err(Conflict)
        else
          var settled := m.(status := status, errorCode := errorCode, revision := m.revision + 1,
                            toolRuns := SettledRuns(m.toolRuns, status, errorCode, now));
          match EmitAll(c.ledger, generationId, assistantId, CompletionBodies(m.toolRuns, status), now, encode)
          case Err(e) => Err(e)
          case Ok(l) =>
            Ok(c.(phase := if status == MessageFailed then GenerationFailed else Idle,
                  generationId := "", activeAssistant := "",
                  messages := c.messages[k := settled], ledger := l))
  }

  /** Restart recovery stops whatever generation was in flight. */
  function Recover(c: Conversation, now: int, encode: Body -> nat): Result<Conversation, TurnError> {
    if c.phase != Generating then Ok(c)
    else CompleteTurn(c, c.generationId, c.activeAssistant, MessageStopped, "agent_restarted", now, encode)
  }

  function ForkCopy(m: Message, id: Id): Message {
    m.(id := id, revision := 1, generationId := "")
  }

  /** A new conversation holding copies of the messages up to a boundary;
    * newIds supplies one fresh id for each copy. */
  function Fork(source: Conversation, messageId: Id, includeBoundary: bool, newIds: seq<Id>)
    : Result<Conversation, TurnError>
  {
    var k := IndexOf(source.messages, messageId);
    if k == |source.messages| then Err(MissingRow)
    else if source.messages[k].status != MessageComplete
            || (!includeBoundary && source.messages[k].role != User) then Err(BadInput)
    else
      var n := if includeBoundary then k + 1 else k;
      if exists i :: 0 <= i < n && source.messages[i].status == MessageStreaming then Err(Conflict)
      else if |newIds| < n then Err(Storage)
      else
        var copies := seq(n, i requires 0 <= i < n => ForkCopy(source.messages[i], newIds[i]));
        Ok(Conversation(Idle, "", "", if n == 0 then 0 else source.messages[n - 1].sequence, n, copies, Ledger([], [])))
  }

  // ----- invariants -----

  predicate IsTerminal(body: Body) {
    body.Completed? || body.Failed? || body.Cancelled?
  }

  /** The journal holds rows of the history, its last row is the last event. */
  ghost predicate LedgerInv(l: Ledger) {
    && (forall i :: 0 <= i < |l.log| ==> l.log[i].sequence == i + 1)
    && Ordered(l.rows)
    && (forall r :: r in l.rows ==> 1 <= r.sequence <= |l.log| && l.log[r.sequence - 1] == r)
    && Latest(l.rows) == |l.log|
  }

  /** Nothing a generation produces follows its terminal event. */
  ghost predicate TerminalIsFinal(log: seq<Event>) {
    forall i, j :: 0 <= i < j < |log| && IsTerminal(log[i].body) && log[i].generationId == log[j].generationId ==>
      log[j].body.Collaboration?
  }

  ghost predicate Ended(log: seq<Event>, generationId: Id) {
    exists i :: 0 <= i < |log| && IsTerminal(log[i].body) && log[i].generationId == generationId
  }

  ghost predicate RowsInv(c: Conversation) {
    && c.messageCount == c.lastMessageSequence == |c.messages|
    && (forall i :: 0 <= i < |c.messages| ==> c.messages[i].sequence == i + 1)
    && (forall i, j :: 0 <= i < j < |c.messages| ==> c.messages[i].id != c.messages[j].id)
  }

  /** Generating exactly while one message streams: the last one, which is the
    * active assistant of the conversation's generation. */
  ghost predicate StreamingInv(c: Conversation) {
    && (c.phase == Generating ==>
          && c.messages != []
          && (var last := c.messages[|c.messages| - 1];
              && last.status == MessageStreaming && last.role == Assistant
              && last.id == c.activeAssistant && last.generationId == c.generationId)
          && c.generationId != "" && !Ended(c.ledger.log, c.generationId))
    && (c.phase != Generating ==> c.generationId == "" && c.activeAssistant == "")
    && (forall i :: 0 <= i < |c.messages| && c.messages[i].status == MessageStreaming ==>
          c.phase == Generating && i == |c.messages| - 1)
  }

  ghost predicate SettledInv(c: Conversation) {
    forall i :: 0 <= i < |c.messages| && c.messages[i].status != MessageStreaming ==>
      !HasRunning(c.messages[i].toolRuns)
  }

  ghost predicate Inv(c: Conversation) {
    RowsInv(c) && StreamingInv(c) && SettledInv(c) && LedgerInv(c.ledger) && TerminalIsFinal(c.ledger.log)
  }

  const EMPTY: Conversation := Conversation(Idle, "", "", 0, 0, [], Ledger([], []))

  // ----- the text a slice of the history carries for one message -----

  function DeltaText(log: seq<Event>, messageId: Id, field: Field): string {
    if log == [] then ""
    else
      (if log[0].messageId == messageId && log[0].body.Delta? && log[0].body.field == field
       then log[0].body.delta else "")
      + DeltaText(log[1..], messageId, field)
  }

  lemma {:induction false} DeltaTextConcat(a: seq<Event>, b: seq<Event>, messageId: Id, field: Field)
    ensures DeltaText(a + b, messageId, field) == DeltaText(a, messageId, field) + DeltaText(b, messageId, field)
  {
    if a == [] {
      assert a + b == b;
    } else {
      assert (a + b)[1..] == a[1..] + b;
      DeltaTextConcat(a[1..], b, messageId, field);
    }
  }

  lemma {:induction false} DeltaTextOfOthers(log: seq<Event>, messageId: Id, field: Field)
    requires forall e :: e in log && e.body.Delta? ==> e.messageId != messageId
    ensures DeltaText(log, messageId, field) == ""
  {
    if log != [] {
      DeltaTextOfOthers(log[1..], messageId, field);
    }
  }

  ghost predicate GrewBy(m: Message, m': Message, news: seq<Event>) {
    && m'.id == m.id && m'.sequence == m.sequence && m'.role == m.role && m'.generationId == m.generationId
    && m'.content == m.content + DeltaText(news, m.id, Text)
    && m'.reasoning == m.reasoning + DeltaText(news, m.id, Reasoning)
    && (m.status != MessageStreaming ==> m' == m)
  }

  /** c' is a later state of c: history only grows, every message stays in its
    * place, its text grows by exactly the deltas committed in between, and a
    * message that has ended never changes again. */
  ghost predicate Extends(c: Conversation, c': Conversation) {
    && c.ledger.log <= c'.ledger.log
    && |c.messages| <= |c'.messages|
    && (forall i :: 0 <= i < |c.messages| ==>
          GrewBy(c.messages[i], c'.messages[i], c'.ledger.log[|c.ledger.log|..]))
  }

  lemma ExtendsRefl(c: Conversation)
    ensures Extends(c, c)
  {
    assert c.ledger.log[|c.ledger.log|..] == [];
  }

  lemma GrewByTrans(a: Message, b: Message, c: Message, ab: seq<Event>, bc: seq<Event>)
    requires GrewBy(a, b, ab) && GrewBy(b, c, bc)
    ensures GrewBy(a, c, ab + bc)
  {
    DeltaTextConcat(ab, bc, a.id, Text);
    DeltaTextConcat(ab, bc, a.id, Reasoning);
    var x, y := DeltaText(ab, a.id, Text), DeltaText(bc, a.id, Text);
    assert a.content + x + y == a.content + (x + y);
    var p, q := DeltaText(ab, a.id, Reasoning), DeltaText(bc, a.id, Reasoning);
    assert a.reasoning + p + q == a.reasoning + (p + q);
  }

  lemma ExtendsTrans(a: Conversation, b: Conversation, c: Conversation)
    requires Extends(a, b) && Extends(b, c)
    ensures Extends(a, c)
  {
    hide GrewBy;
    var ab, bc := b.ledger.log[|a.ledger.log|..], c.ledger.log[|b.ledger.log|..];
    assert c.ledger.log[|a.ledger.log|..] == ab + bc;
    forall i | 0 <= i < |a.messages|
      ensures GrewBy(a.messages[i], c.messages[i], c.ledger.log[|a.ledger.log|..])
    {
      GrewByTrans(a.messages[i], b.messages[i], c.messages[i], ab, bc);
    }
  }

  // ----- the ledger -----

  lemma EmitKeeps(l: Ledger, event: Event)
    requires LedgerInv(l) && Emit(l, event).Ok?
    ensures LedgerInv(Emit(l, event).value)
    ensures Emit(l, event).value.log == l.log + [event.(sequence := |l.log| + 1)]
  {
    NewestEventSurvives(l.rows, event);
    AppendedOrdered(l.rows, event);
  }

  ghost predicate StampedAs(news: seq<Event>, generationId: Id, messageId: Id, bodies: seq<Body>) {
    && |news| == |bodies|
    && (forall i :: 0 <= i < |news| ==>
          news[i].generationId == generationId && news[i].messageId == messageId && news[i].body == bodies[i])
  }

  lemma StampedCons(first: Event, rest: seq<Event>, generationId: Id, messageId: Id, bodies: seq<Body>)
    requires bodies != [] && StampedAs(rest, generationId, messageId, bodies[1..])
    requires first.generationId == generationId && first.messageId == messageId && first.body == bodies[0]
    ensures StampedAs([first] + rest, generationId, messageId, bodies)
  {
    var all := [first] + rest;
    forall i | 0 <= i < |all|
      ensures all[i].generationId == generationId && all[i].messageId == messageId && all[i].body == bodies[i]
    {
      if i > 0 {
        assert all[i] == rest[i - 1] && bodies[i] == bodies[1..][i - 1];
      }
    }
  }

  lemma {:induction false} EmitAllKeeps(
    l: Ledger, generationId: Id, messageId: Id, bodies: seq<Body>, now: int, encode: Body -> nat)
    returns (news: seq<Event>)
    requires LedgerInv(l) && EmitAll(l, generationId, messageId, bodies, now, encode).Ok?
    ensures LedgerInv(EmitAll(l, generationId, messageId, bodies, now, encode).value)
    ensures EmitAll(l, generationId, messageId, bodies, now, encode).value.log == l.log + news
    ensures StampedAs(news, generationId, messageId, bodies)
    decreases |bodies|
  {
    hide LedgerInv;
    if bodies == [] {
      news := [];
    } else {
      var event := EventFor(generationId, messageId, bodies[0], now, encode);
      EmitKeeps(l, event);
      var l1 := Emit(l, event).value;
      assert EmitAll(l, generationId, messageId, bodies, now, encode)
        == EmitAll(l1, generationId, messageId, bodies[1..], now, encode);
      var rest := EmitAllKeeps(l1, generationId, messageId, bodies[1..], now, encode);
      var first := event.(sequence := |l.log| + 1);
      news := [first] + rest;
      assert l.log + [first] + rest == l.log + news;
      StampedCons(first, rest, generationId, messageId, bodies);
    }
  }

  /** Events of a live generation, its terminal event (if any) last, keep the
    * terminal event final. */
  lemma TerminalStaysFinal(log: seq<Event>, news: seq<Event>, generationId: Id)
    requires TerminalIsFinal(log) && !Ended(log, generationId)
    requires forall i :: 0 <= i < |news| ==> news[i].generationId == generationId
    requires forall i :: 0 <= i < |news| - 1 ==> !IsTerminal(news[i].body)
    ensures TerminalIsFinal(log + news)
  {
    var all := log + news;
    assert forall i :: 0 <= i < |log| ==> all[i] == log[i];
    assert forall i :: |log| <= i < |all| ==> all[i] == news[i - |log|];
    assert forall i :: 0 <= i < |all| - 1 && IsTerminal(all[i].body) ==> i < |log|;
    assert forall i :: 0 <= i < |log| && IsTerminal(all[i].body) ==> all[i].generationId != generationId;
  }

  lemma NotEndedBy(log: seq<Event>, news: seq<Event>, generationId: Id)
    requires !Ended(log, generationId)
    requires forall i :: 0 <= i < |news| && news[i].generationId == generationId ==> !IsTerminal(news[i].body)
    ensures !Ended(log + news, generationId)
  {
    var all := log + news;
    forall i | 0 <= i < |all| && IsTerminal(all[i].body)
      ensures all[i].generationId != generationId
    {
      assert all[i] == if i < |log| then log[i] else news[i - |log|];
    }
  }

  lemma CollaborationKeepsFinal(log: seq<Event>, event: Event)
    requires TerminalIsFinal(log) && event.body.Collaboration?
    ensures TerminalIsFinal(log + [event])
  {
  }

  // ----- every operation keeps the invariant and extends the state -----

  ghost predicate Fresh(c: Conversation, generationId: Id) {
    generationId != "" && forall e :: e in c.ledger.log ==> e.generationId != generationId
  }

  /** A write of the running generation: only the last message changes, and the
    * deltas it commits are that message's own. */
  ghost predicate Rewrites(c: Conversation, c': Conversation, news: seq<Event>) {
    var n := |c.messages|;
    && n > 0 && |c'.messages| == n
    && c'.lastMessageSequence == c.lastMessageSequence && c'.messageCount == c.messageCount
    && (forall i :: 0 <= i < n - 1 ==> c'.messages[i] == c.messages[i])
    && GrewBy(c.messages[n - 1], c'.messages[n - 1], news)
    && c'.ledger.log == c.ledger.log + news
    && (forall e :: e in news && e.body.Delta? ==> e.messageId == c.messages[n - 1].id)
  }

  lemma RewriteExtends(c: Conversation, c': Conversation, news: seq<Event>)
    requires RowsInv(c) && Rewrites(c, c', news)
    ensures RowsInv(c') && Extends(c, c')
  {
    assert c'.ledger.log[|c.ledger.log|..] == news;
    forall i | 0 <= i < |c.messages| ensures GrewBy(c.messages[i], c'.messages[i], news) {
      if i < |c.messages| - 1 {
        DeltaTextOfOthers(news, c.messages[i].id, Text);
        DeltaTextOfOthers(news, c.messages[i].id, Reasoning);
      }
    }
  }

  lemma QuietExtends(c: Conversation, c': Conversation, news: seq<Event>)
    requires c'.messages == c.messages && c'.ledger.log == c.ledger.log + news
    requires forall e :: e in news ==> !e.body.Delta?
    ensures Extends(c, c')
  {
    assert c'.ledger.log[|c.ledger.log|..] == news;
    forall i | 0 <= i < |c.messages| ensures GrewBy(c.messages[i], c'.messages[i], news) {
      DeltaTextOfOthers(news, c.messages[i].id, Text);
      DeltaTextOfOthers(news, c.messages[i].id, Reasoning);
    }
  }

  lemma OpenedKeeps(c: Conversation, added: seq<Message>, generationId: Id)
    requires Inv(c) && Fresh(c, generationId) && c.phase != Generating
    requires added != [] && forall i :: 0 <= i < |added| ==>
      && added[i].sequence == |c.messages| + 1 + i && added[i].toolRuns == []
      && (added[i].status == MessageStreaming <==> i == |added| - 1)
      && IndexOf(c.messages, added[i].id) == |c.messages|
      && (forall j :: 0 <= j < i ==> added[j].id != added[i].id)
    requires added[|added| - 1].role == Assistant && added[|added| - 1].generationId == generationId
    ensures
      var c' := c.(phase := Generating, generationId := generationId, activeAssistant := added[|added| - 1].id,
                   lastMessageSequence := c.lastMessageSequence + |added|, messageCount := c.messageCount + |added|,
                   messages := c.messages + added);
      Inv(c') && Extends(c, c')
  {
    assert c.ledger.log[|c.ledger.log|..] == [];
  }

  lemma BeginTurnKeeps(c: Conversation, userId: Id, generationId: Id, assistantId: Id, prompt: string)
    requires Inv(c) && Fresh(c, generationId)
    requires BeginTurn(c, userId, generationId, assistantId, prompt).Ok?
    ensures Inv(BeginTurn(c, userId, generationId, assistantId, prompt).value.conversation)
    ensures Extends(c, BeginTurn(c, userId, generationId, assistantId, prompt).value.conversation)
  {
    var turn := BeginTurn(c, userId, generationId, assistantId, prompt).value;
    if turn.replayed {
      ExtendsRefl(c);
    } else {
      OpenedKeeps(c, [turn.user, turn.assistant], generationId);
    }
  }

  lemma RegenerateKeeps(c: Conversation, targetId: Id, generationId: Id, assistantId: Id)
    requires Inv(c) && Fresh(c, generationId)
    requires Regenerate(c, targetId, generationId, assistantId).Ok?
    ensures Inv(Regenerate(c, targetId, generationId, assistantId).value.conversation)
    ensures Extends(c, Regenerate(c, targetId, generationId, assistantId).value.conversation)
  {
    OpenedKeeps(c, [Regenerate(c, targetId, generationId, assistantId).value.assistant], generationId);
  }

  /** The active assistant is the last message. */
  lemma ActiveIsLast(c: Conversation)
    requires RowsInv(c) && StreamingInv(c) && c.phase == Generating
    ensures IndexOf(c.messages, c.activeAssistant) == |c.messages| - 1
  {
  }

  /** A live write: one event of the running generation, the active message
    * still streaming afterwards. */
  lemma LiveWriteKeeps(c: Conversation, c': Conversation, m: Message, event: Event)
    requires Inv(c) && c.phase == Generating
    requires event.generationId == c.generationId && event.messageId == c.activeAssistant
    requires !IsTerminal(event.body) && Emit(c.ledger, event).Ok?
    requires c' == c.(messages := c.messages[|c.messages| - 1 := m], ledger := Emit(c.ledger, event).value)
    requires m.status == MessageStreaming
    requires GrewBy(c.messages[|c.messages| - 1], m, [event.(sequence := |c.ledger.log| + 1)])
    ensures Inv(c') && Extends(c, c')
  {
    EmitKeeps(c.ledger, event);
    var news := [event.(sequence := |c.ledger.log| + 1)];
    RewriteExtends(c, c', news);
    TerminalStaysFinal(c.ledger.log, news, c.generationId);
    NotEndedBy(c.ledger.log, news, c.generationId);
  }

  lemma OneDelta(event: Event, messageId: Id, field: Field)
    ensures DeltaText([event], messageId, field)
      == (if event.messageId == messageId && event.body.Delta? && event.body.field == field
          then event.body.delta else "")
  {
    assert [event][1..] == [];
  }

  lemma DeltaKeeps(
    c: Conversation, generationId: Id, assistantId: Id, field: Field, delta: string, now: int, encode: Body -> nat)
    requires Inv(c) && AppendDelta(c, generationId, assistantId, field, delta, now, encode).Ok?
    ensures Inv(AppendDelta(c, generationId, assistantId, field, delta, now, encode).value)
    ensures Extends(c, AppendDelta(c, generationId, assistantId, field, delta, now, encode).value)
  {
    ActiveIsLast(c);
    var event := EventFor(generationId, assistantId, Delta(field, delta), now, encode);
    var k := |c.messages| - 1;
    var c' := AppendDelta(c, generationId, assistantId, field, delta, now, encode).value;
    OneDelta(event.(sequence := |c.ledger.log| + 1), assistantId, Text);
    OneDelta(event.(sequence := |c.ledger.log| + 1), assistantId, Reasoning);
    LiveWriteKeeps(c, c', c'.messages[k], event);
  }

  lemma ToolRunKeeps(
    c: Conversation, generationId: Id, assistantId: Id, run: ToolRun, now: int, encode: Body -> nat)
    requires Inv(c) && UpsertToolRun(c, generationId, assistantId, run, now, encode).Ok?
    ensures Inv(UpsertToolRun(c, generationId, assistantId, run, now, encode).value)
    ensures Extends(c, UpsertToolRun(c, generationId, assistantId, run, now, encode).value)
  {
    ActiveIsLast(c);
    var event := EventFor(generationId, assistantId, ToolStatus(run.id, run.status), now, encode);
    var k := |c.messages| - 1;
    var c' := UpsertToolRun(c, generationId, assistantId, run, now, encode).value;
    OneDelta(event.(sequence := |c.ledger.log| + 1), assistantId, Text);
    OneDelta(event.(sequence := |c.ledger.log| + 1), assistantId, Reasoning);
    LiveWriteKeeps(c, c', c'.messages[k], event);
  }

  lemma ApprovalKeeps(c: Conversation, generationId: Id, assistantId: Id, now: int, encode: Body -> nat)
    requires Inv(c) && RequestApproval(c, generationId, assistantId, now, encode).Ok?
    ensures Inv(RequestApproval(c, generationId, assistantId, now, encode).value)
    ensures Extends(c, RequestApproval(c, generationId, assistantId, now, encode).value)
  {
    var event := EventFor(generationId, assistantId, ApprovalRequested, now, encode);
    var k := |c.messages| - 1;
    var c' := RequestApproval(c, generationId, assistantId, now, encode).value;
    OneDelta(event.(sequence := |c.ledger.log| + 1), assistantId, Text);
    OneDelta(event.(sequence := |c.ledger.log| + 1), assistantId, Reasoning);
    LiveWriteKeeps(c, c', c.messages[k], event);
  }

  lemma CollaborateKeeps(c: Conversation, generationId: Id, messageId: Id, now: int, encode: Body -> nat)
    requires Inv(c) && Collaborate(c, generationId, messageId, now, encode).Ok?
    ensures Inv(Collaborate(c, generationId, messageId, now, encode).value)
    ensures Extends(c, Collaborate(c, generationId, messageId, now, encode).value)
  {
    var event := EventFor(generationId, messageId, EventJournal.Collaboration, now, encode);
    EmitKeeps(c.ledger, event);
    var c' := Collaborate(c, generationId, messageId, now, encode).value;
    var news := [event.(sequence := |c.ledger.log| + 1)];
    CollaborationKeepsFinal(c.ledger.log, news[0]);
    if c.phase == Generating {
      NotEndedBy(c.ledger.log, news, c.generationId);
    }
    QuietExtends(c, c', news);
  }

  lemma {:induction false} SettlementBodiesAreStatuses(runs: seq<ToolRun>, status: MessageStatus)
    ensures forall b :: b in SettlementBodies(runs, status) ==> b.ToolStatus?
  {
    if runs != [] {
      SettlementBodiesAreStatuses(runs[1..], status);
    }
  }

  lemma SettleKeeps(c: Conversation, c': Conversation, m: Message)
    requires StreamingInv(c) && SettledInv(c) && c.phase == Generating
    requires c'.phase != Generating && c'.generationId == "" && c'.activeAssistant == ""
    requires c'.messages == c.messages[|c.messages| - 1 := m]
    requires m.status != MessageStreaming && !HasRunning(m.toolRuns)
    ensures StreamingInv(c') && SettledInv(c')
  {
  }

  /** The events one completion commits. */
  lemma CompletionEvents(
    l: Ledger, generationId: Id, assistantId: Id, runs: seq<ToolRun>, status: MessageStatus, now: int,
    encode: Body -> nat)
    returns (news: seq<Event>)
    requires LedgerInv(l) && TerminalIsFinal(l.log) && !Ended(l.log, generationId)
    requires EmitAll(l, generationId, assistantId, CompletionBodies(runs, status), now, encode).Ok?
    ensures
      var l' := EmitAll(l, generationId, assistantId, CompletionBodies(runs, status), now, encode).value;
      LedgerInv(l') && l'.log == l.log + news && TerminalIsFinal(l'.log)
    ensures StampedAs(news, generationId, assistantId, CompletionBodies(runs, status))
    ensures forall e :: e in news ==> !e.body.Delta?
  {
    var bodies := CompletionBodies(runs, status);
    SettlementBodiesAreStatuses(runs, status);
    news := EmitAllKeeps(l, generationId, assistantId, bodies, now, encode);
    forall i | 0 <= i < |news| ensures !news[i].body.Delta? && (i < |news| - 1 ==> !IsTerminal(news[i].body)) {
      assert news[i].body == bodies[i];
      assert i < |SettlementBodies(runs, status)| ==> bodies[i] in SettlementBodies(runs, status);
    }
    TerminalStaysFinal(l.log, news, generationId);
  }

  lemma CompleteKeeps(
    c: Conversation, generationId: Id, assistantId: Id, status: MessageStatus, errorCode: string, now: int,
    encode: Body -> nat)
    requires Inv(c) && CompleteTurn(c, generationId, assistantId, status, errorCode, now, encode).Ok?
    ensures Inv(CompleteTurn(c, generationId, assistantId, status, errorCode, now, encode).value)
    ensures Extends(c, CompleteTurn(c, generationId, assistantId, status, errorCode, now, encode).value)
  {
    var c' := CompleteTurn(c, generationId, assistantId, status, errorCode, now, encode).value;
    var k, m, settled, _ := CompletionWrites(c, generationId, assistantId, status, errorCode, now, encode);
    hide EmitAll, CompletionBodies, SettledRuns, Ended, TerminalIsFinal, LedgerInv, SettledInv, RowsInv;
    assert c.phase == Generating && m.id == assistantId && m.status == MessageStreaming;
    hide CompleteTurn, StreamingInv;
    var news := CompletionEvents(c.ledger, generationId, assistantId, m.toolRuns, status, now, encode);
    SettledGrew(m, settled, status, errorCode, now, news);
    hide GrewBy, HasRunning;
    SettledWriteKeeps(c, c', settled, news);
  }

  lemma SettledGrew(m: Message, settled: Message, status: MessageStatus, errorCode: string, now: int, news: seq<Event>)
    requires m.status == MessageStreaming && forall e :: e in news ==> !e.body.Delta?
    requires settled == m.(status := status, errorCode := errorCode, revision := m.revision + 1,
                           toolRuns := SettledRuns(m.toolRuns, status, errorCode, now))
    ensures GrewBy(m, settled, news) && !HasRunning(settled.toolRuns)
  {
    DeltaTextOfOthers(news, m.id, Text);
    DeltaTextOfOthers(news, m.id, Reasoning);
    hide DeltaText;
    assert m.content + "" == m.content && m.reasoning + "" == m.reasoning;
  }

  /** The final write of a generation. */
  lemma SettledWriteKeeps(c: Conversation, c': Conversation, m: Message, news: seq<Event>)
    requires RowsInv(c) && StreamingInv(c) && SettledInv(c) && c.phase == Generating
    requires c' == c.(phase := c'.phase, generationId := "", activeAssistant := "",
                      messages := c.messages[|c.messages| - 1 := m], ledger := c'.ledger)
    requires c'.phase != Generating && m.status != MessageStreaming && !HasRunning(m.toolRuns)
    requires LedgerInv(c'.ledger) && TerminalIsFinal(c'.ledger.log) && c'.ledger.log == c.ledger.log + news
    requires GrewBy(c.messages[|c.messages| - 1], m, news)
    requires forall e :: e in news ==> !e.body.Delta?
    ensures Inv(c') && Extends(c, c')
  {
    RewriteExtends(c, c', news);
    SettleKeeps(c, c', m);
  }

  /** Completion tells the journal exactly what it settled: one status event for
    * each run that was still running, in order, then usage (only when complete)
    * and, last, the one terminal event of the generation. */
  lemma CompletionIsAnnounced(
    c: Conversation, generationId: Id, assistantId: Id, status: MessageStatus, errorCode: string, now: int,
    encode: Body -> nat)
    requires Inv(c) && CompleteTurn(c, generationId, assistantId, status, errorCode, now, encode).Ok?
    ensures
      var c' := CompleteTurn(c, generationId, assistantId, status, errorCode, now, encode).value;
      var k := |c.messages| - 1;
      c.ledger.log <= c'.ledger.log && k < |c'.messages| &&
      var news := c'.ledger.log[|c.ledger.log|..];
      && c'.messages[k].status == status && c'.messages[k].revision == c.messages[k].revision + 1
      && Ended(c'.ledger.log, generationId) && !Ended(c.ledger.log, generationId)
      && news != [] && IsTerminal(news[|news| - 1].body)
      && (status == MessageComplete <==> news[|news| - 1].body.Completed?)
      && (status == MessageFailed <==> news[|news| - 1].body.Failed?)
      && (status == MessageStopped <==> news[|news| - 1].body.Cancelled?)
      && (status == MessageComplete ==> RunningOf(c.messages[k].toolRuns) == [])
      && Announces(news, RunningOf(c.messages[k].toolRuns), status)
      && (forall e :: e in news ==> e.generationId == generationId && e.messageId == assistantId)
      && (forall r :: 0 <= r < |c.messages[k].toolRuns| && c.messages[k].toolRuns[r].status == Running ==>
            exists i :: 0 <= i < |news| &&
              news[i].body == ToolStatus(c.messages[k].toolRuns[r].id, c'.messages[k].toolRuns[r].status))
  {
    var k, m, settled, news := CompletionWrites(c, generationId, assistantId, status, errorCode, now, encode);
    var c' := CompleteTurn(c, generationId, assistantId, status, errorCode, now, encode).value;
    hide Inv, CompleteTurn;
    assert c'.ledger.log[|c.ledger.log|..] == news;
    LastEnds(c.ledger.log, news, generationId, m.toolRuns, status);
    RunsAnnounced(m.toolRuns, settled.toolRuns, status, news);
    CompletionAnnounces(m.toolRuns, status, news);
    if status == MessageComplete {
      CompleteHasNoneRunning(c, generationId, assistantId, errorCode, now, encode);
    }
  }

  /** The runs that were still running, in order. */
  function RunningOf(runs: seq<ToolRun>): seq<ToolRun> {
    if runs == [] then []
    else (if runs[0].status == Running then [runs[0]] else []) + RunningOf(runs[1..])
  }

  /** One status event for each run that was running, in order, and nothing else
    * before the terminal event but the usage of a complete answer, which left no
    * run running. */
  ghost predicate Announces(news: seq<Event>, running: seq<ToolRun>, status: MessageStatus) {
    && |news| == |running| + (if status == MessageComplete then 2 else 1)
    && (forall i :: 0 <= i < |running| ==>
          news[i].body == ToolStatus(running[i].id, if status == MessageStopped then RunCancelled else RunFailed))
    && (status == MessageComplete ==> news[|running|].body.Usage?)
  }

  lemma {:induction false} SettlementOfRunning(runs: seq<ToolRun>, status: MessageStatus)
    ensures |SettlementBodies(runs, status)| == |RunningOf(runs)|
    ensures forall i :: 0 <= i < |RunningOf(runs)| ==>
      SettlementBodies(runs, status)[i]
        == ToolStatus(RunningOf(runs)[i].id, if status == MessageStopped then RunCancelled else RunFailed)
  {
    if runs != [] {
      SettlementOfRunning(runs[1..], status);
      var bodies, running := SettlementBodies(runs[1..], status), RunningOf(runs[1..]);
      assert SettlementBodies(runs, status) ==
        (if runs[0].status == Running
         then [ToolStatus(runs[0].id, if status == MessageStopped then RunCancelled else RunFailed)] else []) + bodies;
      assert RunningOf(runs) == (if runs[0].status == Running then [runs[0]] else []) + running;
      hide SettlementBodies, RunningOf;
    }
  }

  lemma CompletionAnnounces(runs: seq<ToolRun>, status: MessageStatus, news: seq<Event>)
    requires |news| == |CompletionBodies(runs, status)|
    requires forall i :: 0 <= i < |news| ==> news[i].body == CompletionBodies(runs, status)[i]
    ensures Announces(news, RunningOf(runs), status)
  {
    SettlementOfRunning(runs, status);
    hide RunningOf, SettlementBodies;
  }

  lemma {:induction false} NoneRunning(runs: seq<ToolRun>)
    ensures RunningOf(runs) == [] <==> !HasRunning(runs)
  {
    if runs != [] {
      NoneRunning(runs[1..]);
      assert forall i :: 0 < i < |runs| ==> runs[i] == runs[1..][i - 1];
      if HasRunning(runs[1..]) {
        var i :| 0 <= i < |runs[1..]| && runs[1..][i].status == Running;
        assert runs[i + 1].status == Running;
      }
    }
  }

  /** An answer is only complete once none of its runs is running. */
  lemma CompleteHasNoneRunning(
    c: Conversation, generationId: Id, assistantId: Id, errorCode: string, now: int, encode: Body -> nat)
    requires Inv(c) && CompleteTurn(c, generationId, assistantId, MessageComplete, errorCode, now, encode).Ok?
    ensures c.messages != [] && RunningOf(c.messages[|c.messages| - 1].toolRuns) == []
  {
    ActiveIsLast(c);
    NoneRunning(c.messages[|c.messages| - 1].toolRuns);
  }

  /** What completion changes: the active message and the journal. */
  lemma CompletionWrites(
    c: Conversation, generationId: Id, assistantId: Id, status: MessageStatus, errorCode: string, now: int,
    encode: Body -> nat)
    returns (k: nat, m: Message, settled: Message, news: seq<Event>)
    requires Inv(c) && CompleteTurn(c, generationId, assistantId, status, errorCode, now, encode).Ok?
    ensures k == |c.messages| - 1 && m == c.messages[k] && status != MessageStreaming
    ensures settled == m.(status := status, errorCode := errorCode, revision := m.revision + 1,
                          toolRuns := SettledRuns(m.toolRuns, status, errorCode, now))
    ensures var c' := CompleteTurn(c, generationId, assistantId, status, errorCode, now, encode).value;
      && c'.messages == c.messages[k := settled] && c'.ledger.log == c.ledger.log + news && c'.phase != Generating
      && c' == c.(phase := c'.phase, generationId := "", activeAssistant := "",
                  messages := c.messages[k := settled], ledger := c'.ledger)
      && EmitAll(c.ledger, generationId, assistantId, CompletionBodies(m.toolRuns, status), now, encode) == Ok(c'.ledger)
    ensures StampedAs(news, generationId, assistantId, CompletionBodies(m.toolRuns, status))
    ensures !Ended(c.ledger.log, generationId)
  {
    ActiveIsLast(c);
    k := |c.messages| - 1;
    m := c.messages[k];
    settled := m.(status := status, errorCode := errorCode, revision := m.revision + 1,
                  toolRuns := SettledRuns(m.toolRuns, status, errorCode, now));
    assert CompleteTurn(c, generationId, assistantId, status, errorCode, now, encode).value.messages
        == c.messages[k := settled];
    hide LedgerInv, TerminalIsFinal, SettledInv, CompletionBodies, SettledRuns;
    news := EmitAllKeeps(c.ledger, generationId, assistantId, CompletionBodies(m.toolRuns, status), now, encode);
  }

  lemma LastEnds(log: seq<Event>, news: seq<Event>, generationId: Id, runs: seq<ToolRun>, status: MessageStatus)
    requires |news| == |CompletionBodies(runs, status)| && status != MessageStreaming
    requires forall i :: 0 <= i < |news| ==>
      news[i].generationId == generationId && news[i].body == CompletionBodies(runs, status)[i]
    ensures news != [] && news[|news| - 1].body == TerminalBody(status) && IsTerminal(news[|news| - 1].body)
    ensures Ended(log + news, generationId)
  {
    assert (log + news)[|log| + |news| - 1] == news[|news| - 1];
  }

  lemma RunsAnnounced(runs: seq<ToolRun>, settled: seq<ToolRun>, status: MessageStatus, news: seq<Event>)
    requires |settled| == |runs| && |news| == |CompletionBodies(runs, status)|
    requires forall i :: 0 <= i < |news| ==> news[i].body == CompletionBodies(runs, status)[i]
    requires forall r :: 0 <= r < |runs| && runs[r].status == Running ==>
      settled[r].status == if status == MessageStopped then RunCancelled else RunFailed
    ensures forall r :: 0 <= r < |runs| && runs[r].status == Running ==>
      exists i :: 0 <= i < |news| && news[i].body == ToolStatus(runs[r].id, settled[r].status)
  {
    forall r | 0 <= r < |runs| && runs[r].status == Running
      ensures exists i :: 0 <= i < |news| && news[i].body == ToolStatus(runs[r].id, settled[r].status)
    {
      var i := SettlementMentions(runs, status, r);
      assert CompletionBodies(runs, status)[i] == SettlementBodies(runs, status)[i];
      assert news[i].body == ToolStatus(runs[r].id, settled[r].status);
    }
  }

  lemma {:induction false} SettlementMentions(runs: seq<ToolRun>, status: MessageStatus, r: nat) returns (i: nat)
    requires r < |runs| && runs[r].status == Running
    ensures i < |SettlementBodies(runs, status)|
    ensures SettlementBodies(runs, status)[i]
      == ToolStatus(runs[r].id, if status == MessageStopped then RunCancelled else RunFailed)
  {
    if r == 0 {
      i := 0;
    } else {
      var inner := SettlementMentions(runs[1..], status, r - 1);
      i := inner + (if runs[0].status == Running then 1 else 0);
    }
  }

  /** After a restart nothing is generating and nothing streams; the text that
    * was streamed so far is kept. */
  lemma RecoverySettles(c: Conversation, now: int, encode: Body -> nat)
    requires Inv(c) && Recover(c, now, encode).Ok?
    ensures Inv(Recover(c, now, encode).value) && Extends(c, Recover(c, now, encode).value)
    ensures Recover(c, now, encode).value.phase != Generating
    ensures forall i :: 0 <= i < |c.messages| ==>
      && Recover(c, now, encode).value.messages[i].status != MessageStreaming
      && Recover(c, now, encode).value.messages[i].content == c.messages[i].content
      && Recover(c, now, encode).value.messages[i].reasoning == c.messages[i].reasoning
      && !HasRunning(Recover(c, now, encode).value.messages[i].toolRuns)
  {
    if c.phase == Generating {
      ActiveIsLast(c);
      CompleteKeeps(c, c.generationId, c.activeAssistant, MessageStopped, "agent_restarted", now, encode);
      var _, _, _, _ :=
        CompletionWrites(c, c.generationId, c.activeAssistant, MessageStopped, "agent_restarted", now, encode);
      hide CompleteTurn, EmitAll, Extends, LedgerInv, TerminalIsFinal, CompletionBodies;
    } else {
      ExtendsRefl(c);
    }
  }

  /** Recovery of an interrupted generation fails only when a number space is
    * exhausted or a stored event would be too large. */
  lemma RecoveryIsAlwaysAllowed(c: Conversation, now: int, encode: Body -> nat)
    requires Inv(c) && c.phase == Generating
    requires c.messages[|c.messages| - 1].revision < MAX_SAFE_INTEGER
    requires forall b :: encode(b) <= MAXIMUM_EVENT_PAYLOAD
    requires |c.ledger.log| + |c.messages[|c.messages| - 1].toolRuns| + 1 <= MAX_SAFE_INTEGER
    ensures Recover(c, now, encode).Ok?
  {
    ActiveIsLast(c);
    var runs := c.messages[|c.messages| - 1].toolRuns;
    SettlementLength(runs, MessageStopped);
    EmitAllSucceeds(c.ledger, c.generationId, c.activeAssistant, CompletionBodies(runs, MessageStopped), now, encode);
  }

  lemma {:induction false} SettlementLength(runs: seq<ToolRun>, status: MessageStatus)
    ensures |SettlementBodies(runs, status)| <= |runs|
  {
    if runs != [] {
      SettlementLength(runs[1..], status);
    }
  }

  lemma {:induction false} EmitAllSucceeds(
    l: Ledger, generationId: Id, messageId: Id, bodies: seq<Body>, now: int, encode: Body -> nat)
    requires LedgerInv(l) && |l.log| + |bodies| <= MAX_SAFE_INTEGER
    requires forall b :: encode(b) <= MAXIMUM_EVENT_PAYLOAD
    ensures EmitAll(l, generationId, messageId, bodies, now, encode).Ok?
    decreases |bodies|
  {
    if bodies != [] {
      var event := EventFor(generationId, messageId, bodies[0], now, encode);
      EmitKeeps(l, event);
      EmitAllSucceeds(Emit(l, event).value, generationId, messageId, bodies[1..], now, encode);
    }
  }

  /** A fork is a valid idle conversation with an empty journal whose messages
    * carry the source's text up to the boundary. */
  lemma ForkIsSound(source: Conversation, messageId: Id, includeBoundary: bool, newIds: seq<Id>)
    requires Inv(source) && Fork(source, messageId, includeBoundary, newIds).Ok?
    requires forall i, j :: 0 <= i < j < |newIds| ==> newIds[i] != newIds[j]
    ensures
      var child := Fork(source, messageId, includeBoundary, newIds).value;
      var boundary := source.messages[IndexOf(source.messages, messageId)].sequence;
      && Inv(child) && child.phase == Idle
      && |child.messages| == (if includeBoundary then boundary else boundary - 1)
      && (forall i :: 0 <= i < |child.messages| ==>
            child.messages[i] == source.messages[i].(id := newIds[i], revision := 1, generationId := ""))
  {
    var child := Fork(source, messageId, includeBoundary, newIds).value;
    assert RowsInv(source) && SettledInv(source);
    hide LedgerInv, TerminalIsFinal, HasRunning, StreamingInv, RowsInv, SettledInv;
    ForkShape(source, messageId, includeBoundary, newIds);
    ForkSettled(source, child, newIds);
    ForkIsIdle(child);
  }

  lemma ForkShape(source: Conversation, messageId: Id, includeBoundary: bool, newIds: seq<Id>)
    requires RowsInv(source) && Fork(source, messageId, includeBoundary, newIds).Ok?
    requires forall i, j :: 0 <= i < j < |newIds| ==> newIds[i] != newIds[j]
    ensures
      var child := Fork(source, messageId, includeBoundary, newIds).value;
      var boundary := source.messages[IndexOf(source.messages, messageId)].sequence;
      && |child.messages| == (if includeBoundary then boundary else boundary - 1)
      && |child.messages| <= |source.messages| && |child.messages| <= |newIds|
      && (forall i :: 0 <= i < |child.messages| ==> child.messages[i].status != MessageStreaming)
      && (forall i :: 0 <= i < |child.messages| ==> child.messages[i] == ForkCopy(source.messages[i], newIds[i]))
      && RowsInv(child)
  {
  }

  lemma ForkSettled(source: Conversation, child: Conversation, newIds: seq<Id>)
    requires SettledInv(source) && |child.messages| <= |source.messages| && |child.messages| <= |newIds|
    requires forall i :: 0 <= i < |child.messages| ==> child.messages[i] == ForkCopy(source.messages[i], newIds[i])
    ensures SettledInv(child)
  {
  }

  lemma ForkIsIdle(child: Conversation)
    requires child.phase == Idle && child.generationId == "" && child.activeAssistant == ""
    requires child.ledger == Ledger([], [])
    requires forall i :: 0 <= i < |child.messages| ==> child.messages[i].status != MessageStreaming
    ensures StreamingInv(child) && LedgerInv(child.ledger) && TerminalIsFinal(child.ledger.log)
  {
  }

  // ----- runs -----

  datatype Op =
    | OpBegin(userId: Id, generation: Id, assistant: Id, prompt: string)
    | OpRegenerate(target: Id, generation: Id, assistant: Id)
    | OpDelta(generation: Id, assistant: Id, field: Field, delta: string, now: int)
    | OpToolRun(generation: Id, assistant: Id, run: ToolRun, now: int)
    | OpApproval(generation: Id, assistant: Id, now: int)
    | OpCollaborate(generation: Id, message: Id, now: int)
    | OpComplete(generation: Id, assistant: Id, status: MessageStatus, errorCode: string, now: int)
    | OpRecover(now: int)

  function Applied(c: Conversation, op: Op, encode: Body -> nat): Result<Conversation, TurnError> {
    match op
    case OpBegin(u, g, a, p) =>
      (match BeginTurn(c, u, g, a, p) case Err(e) => Err(e) case Ok(t) => Ok(t.conversation))
    case OpRegenerate(t, g, a) =>
      (match Regenerate(c, t, g, a) case Err(e) => Err(e) case Ok(t) => Ok(t.conversation))
    case OpDelta(g, a, f, d, now) => AppendDelta(c, g, a, f, d, now, encode)
    case OpToolRun(g, a, run, now) => UpsertToolRun(c, g, a, run, now, encode)
    case OpApproval(g, a, now) => RequestApproval(c, g, a, now, encode)
    case OpCollaborate(g, m, now) => Collaborate(c, g, m, now, encode)
    case OpComplete(g, a, s, code, now) => CompleteTurn(c, g, a, s, code, now, encode)
    case OpRecover(now) => Recover(c, now, encode)
  }

  /** Generation ids are new random ids. */
  ghost predicate Admissible(c: Conversation, op: Op) {
    (op.OpBegin? || op.OpRegenerate?) ==> Fresh(c, op.generation)
  }

  /** One transaction: it commits, or it fails and changes nothing. */
  ghost predicate Step(c: Conversation, c': Conversation, op: Op, encode: Body -> nat) {
    && Admissible(c, op)
    && c' == (match Applied(c, op, encode) case Ok(n) => n case Err(_) => c)
  }

  lemma StepKeeps(c: Conversation, c': Conversation, op: Op, encode: Body -> nat)
    requires Inv(c) && Step(c, c', op, encode)
    ensures Inv(c') && Extends(c, c')
  {
    if Applied(c, op, encode).Err? {
      ExtendsRefl(c);
    } else {
      match op
      case OpBegin(u, g, a, p) => BeginTurnKeeps(c, u, g, a, p);
      case OpRegenerate(t, g, a) => RegenerateKeeps(c, t, g, a);
      case OpDelta(g, a, f, d, now) => DeltaKeeps(c, g, a, f, d, now, encode);
      case OpToolRun(g, a, run, now) => ToolRunKeeps(c, g, a, run, now, encode);
      case OpApproval(g, a, now) => ApprovalKeeps(c, g, a, now, encode);
      case OpCollaborate(g, m, now) => CollaborateKeeps(c, g, m, now, encode);
      case OpComplete(g, a, s, code, now) => CompleteKeeps(c, g, a, s, code, now, encode);
      case OpRecover(now) => RecoverySettles(c, now, encode);
    }
  }

  ghost predicate Distinct(ids: seq<Id>) {
    forall i, j :: 0 <= i < j < |ids| ==> ids[i] != ids[j]
  }

  ghost predicate ForkedFrom(
    c: Conversation, source: Conversation, messageId: Id, includeBoundary: bool, newIds: seq<Id>)
  {
    Inv(source) && Distinct(newIds) && Fork(source, messageId, includeBoundary, newIds) == Ok(c)
  }

  /** A conversation begins empty, or as a fork of another one at any boundary. */
  ghost predicate Started(c: Conversation) {
    c == EMPTY || exists source, messageId, includeBoundary, newIds ::
      ForkedFrom(c, source, messageId, includeBoundary, newIds)
  }

  lemma StartedKeeps(c: Conversation)
    requires Started(c)
    ensures Inv(c) && c.ledger == Ledger([], []) && c.phase == Idle
  {
    if c != EMPTY {
      var source, messageId, includeBoundary, newIds :| ForkedFrom(c, source, messageId, includeBoundary, newIds);
      ForkIsSound(source, messageId, includeBoundary, newIds);
      hide Inv;
    }
  }

  ghost predicate IsRun(run: seq<Conversation>, ops: seq<Op>, encode: Body -> nat) {
    && |run| == |ops| + 1 && Started(run[0])
    && (forall i :: 0 <= i < |ops| ==> Step(run[i], run[i + 1], ops[i], encode))
  }

  lemma {:induction false} RunKeepsInv(run: seq<Conversation>, ops: seq<Op>, encode: Body -> nat, i: nat)
    requires IsRun(run, ops, encode) && i < |run|
    ensures Inv(run[i])
  {
    if i == 0 {
      StartedKeeps(run[0]);
    } else {
      RunKeepsInv(run, ops, encode, i - 1);
      StepKeeps(run[i - 1], run[i], ops[i - 1], encode);
    }
  }

  lemma RunStepExtends(run: seq<Conversation>, ops: seq<Op>, encode: Body -> nat, i: nat)
    requires IsRun(run, ops, encode) && i < |ops|
    ensures Extends(run[i], run[i + 1])
  {
    RunKeepsInv(run, ops, encode, i);
    StepKeeps(run[i], run[i + 1], ops[i], encode);
  }

  lemma {:induction false} ChainExtends(run: seq<Conversation>, i: nat, j: nat)
    requires i <= j < |run| && forall k :: i <= k < j ==> Extends(run[k], run[k + 1])
    ensures Extends(run[i], run[j])
    decreases j - i
  {
    if i == j {
      ExtendsRefl(run[i]);
    } else {
      ChainExtends(run, i, j - 1);
      ExtendsTrans(run[i], run[j - 1], run[j - 1 + 1]);
    }
  }

  lemma RunExtends(run: seq<Conversation>, ops: seq<Op>, encode: Body -> nat, i: nat, j: nat)
    requires IsRun(run, ops, encode) && i <= j < |run|
    ensures Extends(run[i], run[j])
  {
    forall k | i <= k < j ensures Extends(run[k], run[k + 1]) {
      RunStepExtends(run, ops, encode, k);
    }
    ChainExtends(run, i, j);
  }

  /** The text a message was copied with, if the conversation started as a fork. */
  function StartText(start: Conversation, i: nat, field: Field): string {
    if i < |start.messages| then FieldText(start.messages[i], field) else ""
  }

  ghost predicate TextAt(c: Conversation, start: Conversation, i: nat)
    requires i < |c.messages|
  {
    && c.messages[i].content == StartText(start, i, Text) + DeltaText(c.ledger.log, c.messages[i].id, Text)
    && c.messages[i].reasoning == StartText(start, i, Reasoning) + DeltaText(c.ledger.log, c.messages[i].id, Reasoning)
  }

  /** Deltas belong to stored messages, and the text of every assistant message
    * is exactly what it was copied with and the deltas committed for it. */
  ghost predicate TextInv(c: Conversation, start: Conversation) {
    && |start.messages| <= |c.messages|
    && (forall e :: e in c.ledger.log && e.body.Delta? ==> IndexOf(c.messages, e.messageId) < |c.messages|)
    && (forall i :: 0 <= i < |c.messages| && c.messages[i].role == Assistant ==> TextAt(c, start, i))
  }

  lemma StartedText(c: Conversation)
    requires Started(c)
    ensures TextInv(c, c)
  {
    StartedKeeps(c);
    hide Inv;
    forall i | 0 <= i < |c.messages| ensures TextAt(c, c, i) {
      assert c.messages[i].content + "" == c.messages[i].content;
      assert c.messages[i].reasoning + "" == c.messages[i].reasoning;
    }
  }

  lemma IdsStay(c: Conversation, c': Conversation, id: Id)
    requires Extends(c, c') && IndexOf(c.messages, id) < |c.messages|
    ensures IndexOf(c'.messages, id) < |c'.messages|
  {
    assert GrewBy(c.messages[IndexOf(c.messages, id)], c'.messages[IndexOf(c.messages, id)],
                  c'.ledger.log[|c.ledger.log|..]);
  }

  lemma OldTextStays(c: Conversation, c': Conversation, start: Conversation, i: nat)
    requires Extends(c, c') && TextInv(c, start) && i < |c.messages| && c.messages[i].role == Assistant
    ensures TextAt(c', start, i)
  {
    assert TextAt(c, start, i);
    var news := c'.ledger.log[|c.ledger.log|..];
    assert GrewBy(c.messages[i], c'.messages[i], news);
    assert c'.ledger.log == c.ledger.log + news;
    DeltaTextConcat(c.ledger.log, news, c.messages[i].id, Text);
    DeltaTextConcat(c.ledger.log, news, c.messages[i].id, Reasoning);
    Associates(StartText(start, i, Text), DeltaText(c.ledger.log, c.messages[i].id, Text),
               DeltaText(news, c.messages[i].id, Text));
    Associates(StartText(start, i, Reasoning), DeltaText(c.ledger.log, c.messages[i].id, Reasoning),
               DeltaText(news, c.messages[i].id, Reasoning));
  }

  lemma Associates(x: string, y: string, z: string)
    ensures x + y + z == x + (y + z)
  {
  }

  /** Opening operations add messages whose assistant starts empty under an
    * unused id, and no events. */
  lemma OpeningAdds(c: Conversation, c': Conversation, op: Op, encode: Body -> nat)
    requires (op.OpBegin? || op.OpRegenerate?) && Step(c, c', op, encode)
    ensures c'.ledger == c.ledger && |c.messages| <= |c'.messages|
    ensures forall i :: |c.messages| <= i < |c'.messages| && c'.messages[i].role == Assistant ==>
      c'.messages[i].content == "" && c'.messages[i].reasoning == ""
      && IndexOf(c.messages, c'.messages[i].id) == |c.messages|
  {
  }

  lemma EmitAdds(l: Ledger, event: Event)
    requires Emit(l, event).Ok?
    ensures Emit(l, event).value.log[|l.log|..] == [event.(sequence := Latest(l.rows) + 1)]
  {
  }

  /** Every other operation adds only events; their deltas belong to a stored
    * message. */
  lemma WritingAdds(c: Conversation, c': Conversation, op: Op, encode: Body -> nat)
    requires Inv(c) && !op.OpBegin? && !op.OpRegenerate? && Step(c, c', op, encode)
    ensures |c'.messages| == |c.messages| && c.ledger.log <= c'.ledger.log
    ensures forall e :: e in c'.ledger.log[|c.ledger.log|..] && e.body.Delta? ==>
      IndexOf(c.messages, e.messageId) < |c.messages|
  {
    hide Inv;
    if Applied(c, op, encode).Err? {
      assert c.ledger.log[|c.ledger.log|..] == [];
    } else {
      match op
      case OpDelta(g, a, f, d, now) => EmitAdds(c.ledger, EventFor(g, a, Delta(f, d), now, encode));
      case OpToolRun(g, a, run, now) => EmitAdds(c.ledger, EventFor(g, a, ToolStatus(run.id, run.status), now, encode));
      case OpApproval(g, a, now) => EmitAdds(c.ledger, EventFor(g, a, ApprovalRequested, now, encode));
      case OpCollaborate(g, m, now) => EmitAdds(c.ledger, EventFor(g, m, EventJournal.Collaboration, now, encode));
      case OpComplete(g, a, s, code, now) => QuietCompletion(c, g, a, s, code, now, encode);
      case OpRecover(now) =>
        if c.phase == Generating {
          QuietCompletion(c, c.generationId, c.activeAssistant, MessageStopped, "agent_restarted", now, encode);
        } else {
          assert c.ledger.log[|c.ledger.log|..] == [];
        }
    }
  }

  lemma QuietCompletion(
    c: Conversation, generationId: Id, assistantId: Id, status: MessageStatus, errorCode: string, now: int,
    encode: Body -> nat)
    requires Inv(c) && CompleteTurn(c, generationId, assistantId, status, errorCode, now, encode).Ok?
    ensures var c' := CompleteTurn(c, generationId, assistantId, status, errorCode, now, encode).value;
      && |c'.messages| == |c.messages| && c.ledger.log <= c'.ledger.log
      && forall e :: e in c'.ledger.log[|c.ledger.log|..] ==> !e.body.Delta?
  {
    ActiveIsLast(c);
    var k := |c.messages| - 1;
    var news := CompletionEvents(c.ledger, generationId, assistantId, c.messages[k].toolRuns, status, now, encode);
    var c' := CompleteTurn(c, generationId, assistantId, status, errorCode, now, encode).value;
    assert c'.ledger.log[|c.ledger.log|..] == news;
  }

  /** A transaction that commits several events commits no delta. */
  lemma SeveralEventsAreQuiet(c: Conversation, c': Conversation, op: Op, encode: Body -> nat)
    requires Inv(c) && Step(c, c', op, encode) && |c'.ledger.log| >= |c.ledger.log| + 2
    ensures forall e :: e in c'.ledger.log[|c.ledger.log|..] ==> !e.body.Delta?
  {
    hide Inv;
    match op
    case OpBegin(_, _, _, _) => OpeningAdds(c, c', op, encode);
    case OpRegenerate(_, _, _) => OpeningAdds(c, c', op, encode);
    case OpComplete(g, a, s, code, now) => QuietCompletion(c, g, a, s, code, now, encode);
    case OpRecover(now) =>
      QuietCompletion(c, c.generationId, c.activeAssistant, MessageStopped, "agent_restarted", now, encode);
    case _ => OneEventAtMost(c, c', op, encode);
  }

  lemma OneEventAtMost(c: Conversation, c': Conversation, op: Op, encode: Body -> nat)
    requires op.OpDelta? || op.OpToolRun? || op.OpApproval? || op.OpCollaborate?
    requires Step(c, c', op, encode)
    ensures |c'.ledger.log| <= |c.ledger.log| + 1
  {
  }

  lemma StepKeepsText(c: Conversation, c': Conversation, op: Op, encode: Body -> nat, start: Conversation)
    requires Inv(c) && TextInv(c, start) && Step(c, c', op, encode) && Extends(c, c')
    ensures TextInv(c', start)
  {
    if op.OpBegin? || op.OpRegenerate? {
      OpeningAdds(c, c', op, encode);
      assert c'.ledger.log[|c.ledger.log|..] == [];
    } else {
      WritingAdds(c, c', op, encode);
    }
    TextFollows(c, c', start);
  }

  /** Over whole runs, forked or not: every assistant's stored text is the text
    * it was copied with followed by its committed deltas. */
  lemma {:induction false} RunKeepsText(run: seq<Conversation>, ops: seq<Op>, encode: Body -> nat, i: nat)
    requires IsRun(run, ops, encode) && i < |run|
    ensures TextInv(run[i], run[0])
  {
    hide TextInv;
    if i == 0 {
      StartedText(run[0]);
    } else {
      RunKeepsText(run, ops, encode, i - 1);
      hide *;
      RunStepKeepsText(run, ops, encode, i - 1);
    }
  }

  lemma RunStepKeepsText(run: seq<Conversation>, ops: seq<Op>, encode: Body -> nat, i: nat)
    requires IsRun(run, ops, encode) && i + 1 < |run| && TextInv(run[i], run[0])
    ensures TextInv(run[i + 1], run[0])
  {
    hide TextInv, Inv, Extends, Started, Step;
    RunKeepsInv(run, ops, encode, i);
    RunStepExtends(run, ops, encode, i);
    assert Step(run[i], run[i + 1], ops[i], encode);
    StepKeepsText(run[i], run[i + 1], ops[i], encode, run[0]);
  }

  lemma TextFollows(c: Conversation, c': Conversation, start: Conversation)
    requires TextInv(c, start) && Extends(c, c')
    requires c'.ledger.log == c.ledger.log || |c'.messages| == |c.messages|
    requires forall e :: e in c'.ledger.log[|c.ledger.log|..] && e.body.Delta? ==>
      IndexOf(c.messages, e.messageId) < |c.messages|
    requires forall i :: |c.messages| <= i < |c'.messages| && c'.messages[i].role == Assistant ==>
      c'.messages[i].content == "" && c'.messages[i].reasoning == ""
      && IndexOf(c.messages, c'.messages[i].id) == |c.messages|
    ensures TextInv(c', start)
  {
    var log, log' := c.ledger.log, c'.ledger.log;
    assert log' == log + log'[|log|..];
    forall e | e in log' && e.body.Delta? ensures IndexOf(c'.messages, e.messageId) < |c'.messages| {
      IdsStay(c, c', e.messageId);
    }
    forall i | 0 <= i < |c'.messages| && c'.messages[i].role == Assistant
      ensures TextAt(c', start, i)
    {
      if i < |c.messages| {
        assert GrewBy(c.messages[i], c'.messages[i], log'[|log|..]);
        OldTextStays(c, c', start, i);
      } else {
        DeltaTextOfOthers(log, c'.messages[i].id, Text);
        DeltaTextOfOthers(log, c'.messages[i].id, Reasoning);
      }
    }
  }

  /** Over whole runs, from nothing or from a fork, with restarts: the
    * conversation generates exactly while
    * one message streams, and that message is its active assistant; a message
    * that has ended is never touched again and holds no running tool run; and
    * no text, tool, approval or usage event of a generation follows the
    * generation's terminal event. */
  lemma LifecycleIsSound(run: seq<Conversation>, ops: seq<Op>, encode: Body -> nat, i: nat, j: nat)
    requires IsRun(run, ops, encode) && i <= j < |run|
    ensures run[j].phase == Generating <==>
      exists k :: 0 <= k < |run[j].messages| && run[j].messages[k].status == MessageStreaming
    ensures forall k, l :: 0 <= k < l < |run[j].messages| ==>
      !(run[j].messages[k].status == MessageStreaming && run[j].messages[l].status == MessageStreaming)
    ensures forall k :: 0 <= k < |run[j].messages| && run[j].messages[k].status == MessageStreaming ==>
      run[j].messages[k].id == run[j].activeAssistant && run[j].messages[k].generationId == run[j].generationId
    ensures forall k :: 0 <= k < |run[i].messages| && run[i].messages[k].status != MessageStreaming ==>
      k < |run[j].messages| && run[j].messages[k] == run[i].messages[k] && !HasRunning(run[i].messages[k].toolRuns)
    ensures TerminalIsFinal(run[j].ledger.log)
  {
    RunKeepsInv(run, ops, encode, i);
    RunKeepsInv(run, ops, encode, j);
    RunExtends(run, ops, encode, i, j);
    if run[j].phase == Generating {
      assert run[j].messages[|run[j].messages| - 1].status == MessageStreaming;
    }
    forall k | 0 <= k < |run[i].messages| && run[i].messages[k].status != MessageStreaming
      ensures run[j].messages[k] == run[i].messages[k]
    {
      assert GrewBy(run[i].messages[k], run[j].messages[k], run[j].ledger.log[|run[i].ledger.log|..]);
    }
  }
}
