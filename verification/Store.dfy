/** The conversation row, its messages and its journal as the store updates
  * them: every method is one transaction, step by step, and rolls back on error.
  */
module ConversationStore {
  import opened Wrappers
  import opened EventJournal
  import opened ConversationTurns

  lemma {:induction false} SettlementGrows(runs: seq<ToolRun>, index: nat, status: MessageStatus)
    requires index < |runs|
    ensures SettlementBodies(runs[..index + 1], status)
      == SettlementBodies(runs[..index], status)
         + (if runs[index].status == Running
            then [ToolStatus(runs[index].id, if status == MessageStopped then RunCancelled else RunFailed)] else [])
  {
    if index == 0 {
      assert runs[..1] == [runs[0]] && runs[..0] == [] && [runs[0]][1..] == [];
    } else {
      assert runs[..index + 1][1..] == runs[1..][..index] && runs[..index][1..] == runs[1..][..index - 1];
      SettlementGrows(runs[1..], index - 1, status);
    }
  }

  class Store {
    var phase: ConversationPhase
    var generationId: Id
    var activeAssistant: Id
    var lastMessageSequence: nat
    var messageCount: nat
    var messages: seq<Message>
    const journal: Journal
    ghost var log: seq<Event>

    constructor ()
      ensures State() == EMPTY && fresh(journal)
    {
      phase, generationId, activeAssistant := Idle, "", "";
      lastMessageSequence, messageCount, messages := 0, 0, [];
      journal := new Journal();
      log := [];
    }

    ghost function Recorded(): Ledger
      reads this, journal
    {
      Ledger(journal.rows, log)
    }

    ghost function State(): Conversation
      reads this, journal
    {
      Conversation(phase, generationId, activeAssistant, lastMessageSequence, messageCount, messages, Recorded())
    }

    method EmitOne(event: Event) returns (r: Result<Event, TurnError>)
      modifies this`log, journal
      ensures r.Ok? <==> Emit(old(Recorded()), event).Ok?
      ensures r.Ok? ==> Recorded() == Emit(old(Recorded()), event).value
      ensures r.Ok? ==> r.value == event.(sequence := Latest(old(journal.rows)) + 1)
      ensures r.Err? ==> Recorded() == old(Recorded()) && r.error == Emit(old(Recorded()), event).error
    {
      var stored := journal.Append(event);
      if stored.Err? {
        return Err(if stored.error == Invalid then BadInput else TurnError.Exhausted);
      }
      log := log + [stored.value];
      r := Ok(stored.value);
    }

    method BeginAITurn(userId: Id, generation: Id, assistantId: Id, prompt: string)
        returns (r: Result<(Message, Message, bool), TurnError>)
      modifies this
      ensures var spec := BeginTurn(old(State()), userId, generation, assistantId, prompt);
        match spec
        case Err(e) => r == Err(e) && State() == old(State())
        case Ok(t) => r == Ok((t.user, t.assistant, t.replayed)) && State() == t.conversation
    {
      if prompt == "" || |prompt| > MAXIMUM_PROMPT_BYTES {
        return Err(BadInput);
      }
      var k := IndexOf(messages, userId);
      if k < |messages| {
        var existing := messages[k];
        if existing.role != User || existing.content != prompt {
          return Err(Conflict);
        }
        var a := AssistantOf(messages, existing.generationId);
        if a == |messages| {
          return Err(MissingRow);
        }
        return Ok((existing, messages[a], true));
      }
      if phase == Generating {
        return Err(GenerationActive);
      }
      if assistantId == userId || IndexOf(messages, assistantId) < |messages| {
        return Err(Storage);
      }
      phase, generationId, activeAssistant := Generating, generation, assistantId;
      lastMessageSequence := lastMessageSequence + 2;
      messageCount := messageCount + 2;
      var user := Message(
        userId, 1, lastMessageSequence - 1, User, MessageComplete, "", prompt, "", [], generation);
      var assistant := Message(
        assistantId, 1, lastMessageSequence, Assistant, MessageStreaming, "", "", "", [], generation);
      messages := messages + [user];
      messages := messages + [assistant];
      assert old(messages) + [user] + [assistant] == old(messages) + [user, assistant];
      r := Ok((user, assistant, false));
    }

    method BeginAIRegeneration(targetId: Id, generation: Id, assistantId: Id)
        returns (r: Result<(Message, Message), TurnError>)
      modifies this
      ensures var spec := Regenerate(old(State()), targetId, generation, assistantId);
        match spec
        case Err(e) => r == Err(e) && State() == old(State())
        case Ok(t) => r == Ok((t.user, t.assistant)) && State() == t.conversation
    {
      if phase == Generating {
        return Err(GenerationActive);
      }
      var k := IndexOf(messages, targetId);
      if k == |messages| {
        return Err(MissingRow);
      }
      if messages[k].role != Assistant || messages[k].status == MessageStreaming {
        return Err(BadInput);
      }
      var u := UserBefore(messages, k);
      if u == k {
        return Err(BadInput);
      }
      if IndexOf(messages, assistantId) < |messages| {
        return Err(Storage);
      }
      var user := messages[u];
      phase, generationId, activeAssistant := Generating, generation, assistantId;
      lastMessageSequence := lastMessageSequence + 1;
      messageCount := messageCount + 1;
      var assistant := Message(
        assistantId, 1, lastMessageSequence, Assistant, MessageStreaming, "", "", "", [], generation);
      messages := messages + [assistant];
      r := Ok((user, assistant));
    }

    method AppendAIDelta(
      generation: Id, assistantId: Id, field: Field, delta: string, now: int, encode: Body -> nat)
        returns (r: Result<(Message, Event), TurnError>)
      modifies this, journal
      ensures var spec := AppendDelta(old(State()), generation, assistantId, field, delta, now, encode);
        match spec
        case Err(e) => r == Err(e) && State() == old(State())
        case Ok(c) =>
          && State() == c && r.Ok? && r.value.0 in c.messages && r.value.0.id == assistantId
          && log == old(log) + [r.value.1] && r.value.1.body == Delta(field, delta)
    {
      if delta == "" || |delta| > MAXIMUM_DELTA_BYTES {
        return Err(BadInput);
      }
      if phase != Generating || generationId != generation || activeAssistant != assistantId {
        return Err(Conflict);
      }
      var k := IndexOf(messages, assistantId);
      if k == |messages| {
        return Err(MissingRow);
      }
      var message := messages[k];
      var current := message.content;
      if field == Reasoning {
        current := message.reasoning;
      }
      if message.status != MessageStreaming || |current| + |delta| > MAXIMUM_ASSISTANT_BYTES
         || message.revision == MAX_SAFE_INTEGER {
        return Err(Conflict);
      }
      current := current + delta;
      message := message.(revision := message.revision + 1);
      if field == Text {
        message := message.(content := current);
      } else {
        message := message.(reasoning := current);
      }
      var emitted := EmitOne(EventFor(generation, assistantId, Delta(field, delta), now, encode));
      if emitted.Err? {
        return Err(emitted.error);
      }
      messages := messages[k := message];
      assert messages[k] == message;
      r := Ok((message, emitted.value));
    }

    method UpsertAIToolRun(generation: Id, assistantId: Id, run: ToolRun, now: int, encode: Body -> nat)
        returns (r: Result<Message, TurnError>)
      modifies this, journal
      ensures var spec := UpsertToolRun(old(State()), generation, assistantId, run, now, encode);
        match spec
        case Err(e) => r == Err(e) && State() == old(State())
        case Ok(c) => State() == c && r.Ok? && r.value in c.messages && r.value.id == assistantId
    {
      hide IndexOf, RunIndex, ValidToolRun;
      if !ValidToolRun(run) {
        return Err(BadInput);
      }
      if phase != Generating || generationId != generation || activeAssistant != assistantId {
        return Err(Conflict);
      }
      var k := IndexOf(messages, assistantId);
      if k == |messages| {
        return Err(MissingRow);
      }
      var message := messages[k];
      if message.status != MessageStreaming || message.revision == MAX_SAFE_INTEGER {
        return Err(Conflict);
      }
      var found := RunIndex(message.toolRuns, run.id);
      if found == |message.toolRuns| {
        if |message.toolRuns| >= MAXIMUM_TOOL_RUNS || run.status != Running {
          return Err(BadInput);
        }
        message := message.(toolRuns := message.toolRuns + [run]);
      } else {
        var previous := message.toolRuns[found];
        if previous.tool != run.tool || previous.arguments != run.arguments || previous.startedAt != run.startedAt
           || previous.status != Running || (run.status == Running && |run.output| <= |previous.output|) {
          return Err(Conflict);
        }
        message := message.(toolRuns := message.toolRuns[found := run]);
      }
      message := message.(revision := message.revision + 1);
      var emitted := EmitOne(EventFor(generation, assistantId, ToolStatus(run.id, run.status), now, encode));
      if emitted.Err? {
        return Err(emitted.error);
      }
      messages := messages[k := message];
      assert messages[k] == message;
      r := Ok(message);
    }

    /** Appends the events of one transaction in order; a failure rolls back. */
    method EmitInOrder(generation: Id, messageId: Id, bodies: seq<Body>, now: int, encode: Body -> nat)
        returns (r: Result<seq<Event>, TurnError>)
      modifies this`log, journal
      ensures match EmitAll(old(Recorded()), generation, messageId, bodies, now, encode)
        case Err(e) => r == Err(e) && Recorded() == old(Recorded())
        case Ok(l) => r.Ok? && Recorded() == l && log == old(log) + r.value && |r.value| == |bodies|
    {
      var savedRows := journal.rows;
      ghost var savedLog := log;
      var events: seq<Event> := [];
      var index := 0;
      while index < |bodies|
        invariant 0 <= index <= |bodies| && |events| == index
        invariant EmitAll(Recorded(), generation, messageId, bodies[index..], now, encode)
          == EmitAll(old(Recorded()), generation, messageId, bodies, now, encode)
        invariant log == savedLog + events
      {
        assert bodies[index..][0] == bodies[index] && bodies[index..][1..] == bodies[index + 1..];
        var emitted := EmitOne(EventFor(generation, messageId, bodies[index], now, encode));
        if emitted.Err? {
          journal.rows := savedRows;
          log := savedLog;
          return Err(emitted.error);
        }
        events := events + [emitted.value];
        index := index + 1;
      }
      assert bodies[index..] == [];
      r := Ok(events);
    }

    /** Settles every run that is still running; reports their new states. */
    static method SettleRuns(runs: seq<ToolRun>, status: MessageStatus, errorCode: string, now: int)
        returns (settled: seq<ToolRun>, bodies: seq<Body>, anyRunning: bool)
      ensures settled == SettledRuns(runs, status, errorCode, now)
      ensures bodies == SettlementBodies(runs, status)
      ensures anyRunning == HasRunning(runs)
    {
      settled, bodies, anyRunning := runs, [], false;
      for index := 0 to |runs|
        invariant |settled| == |runs|
        invariant forall i :: 0 <= i < index ==> settled[i] == SettledRun(runs[i], status, errorCode, now)
        invariant forall i :: index <= i < |runs| ==> settled[i] == runs[i]
        invariant bodies == SettlementBodies(runs[..index], status)
        invariant anyRunning <==> exists i :: 0 <= i < index && runs[i].status == Running
      {
        SettlementGrows(runs, index, status);
        if settled[index].status == Running {
          anyRunning := true;
          var run := settled[index].(finishedAt := Some(now),
                                     errorCode := if errorCode != "" then errorCode else "generation_failed",
                                     status := RunFailed);
          if status == MessageStopped {
            run := run.(status := RunCancelled, errorCode := "cancelled");
          }
          settled := settled[index := run];
          bodies := bodies + [ToolStatus(run.id, run.status)];
        }
      }
      assert runs[..|runs|] == runs;
    }

    method CompleteAITurn(
      generation: Id, assistantId: Id, status: MessageStatus, errorCode: string, now: int, encode: Body -> nat)
        returns (r: Result<(Message, seq<Event>), TurnError>)
      modifies this, journal
      ensures var spec := CompleteTurn(old(State()), generation, assistantId, status, errorCode, now, encode);
        match spec
        case Err(e) => r == Err(e) && State() == old(State())
        case Ok(c) => State() == c && r.Ok? && r.value.0.status == status && log == old(log) + r.value.1
    {
      hide EmitAll, Emit, IndexOf, SettledRuns, SettlementBodies, HasRunning, IsBlank, SettledRun;
      if status == MessageStreaming || |errorCode| > 80 {
        return Err(BadInput);
      }
      if phase != Generating || generationId != generation || activeAssistant != assistantId {
        return Err(Conflict);
      }
      var k := IndexOf(messages, assistantId);
      if k == |messages| {
        return Err(MissingRow);
      }
      var message := messages[k];
      if message.status != MessageStreaming || message.revision == MAX_SAFE_INTEGER
         || (status == MessageComplete && IsBlank(message.content) && message.toolRuns == []) {
        return Err(Conflict);
      }
      var settled, bodies, anyRunning := SettleRuns(message.toolRuns, status, errorCode, now);
      if status == MessageComplete && anyRunning {
        return Err(Conflict);
      }
      message := message.(status := status, errorCode := errorCode, revision := message.revision + 1,
                          toolRuns := settled);
      if status == MessageComplete {
        bodies := bodies + [Usage];
      }
      bodies := bodies + [TerminalBody(status)];
      assert bodies == CompletionBodies(messages[k].toolRuns, status);
      var emitted := EmitInOrder(generation, assistantId, bodies, now, encode);
      if emitted.Err? {
        return Err(emitted.error);
      }
      messages := messages[k := message];
      generationId, activeAssistant, phase := "", "", Idle;
      if status == MessageFailed {
        phase := GenerationFailed;
      }
      r := Ok((message, emitted.value));
    }

    method RecoverInterrupted(now: int, encode: Body -> nat) returns (recovered: bool)
      modifies this, journal
      ensures State() == (match Recover(old(State()), now, encode) case Ok(c) => c case Err(_) => old(State()))
      ensures recovered <==> old(phase) == Generating && Recover(old(State()), now, encode).Ok?
    {
      recovered := false;
      if phase == Generating {
        var r := CompleteAITurn(generationId, activeAssistant, MessageStopped, "agent_restarted", now, encode);
        recovered := r.Ok?;
      }
    }
  }
}
