/** Projection of provider events into the history, and the runtime that performs one provider turn. */
module ProviderTurnRuntime {
  import opened Sequences
  import opened OperationalHistory
  import opened JsonModel
  import opened ProviderAdapter
  import Text

  // ---------- projection ----------

  function Persisted(sessionId: string, turnId: string, e: EventFields): Event {
    Event(sessionId, turnId, Model(e.eventType), e.toolCallId, e.lbeCallId)
  }

  /** The stored event is that of its session and turn, with the kind and the identifiers of `e`. */
  ghost predicate Carries(stored: Event, sessionId: string, turnId: string, e: EventFields) {
    && stored.sessionId == sessionId && stored.turnId == turnId && stored.eventType == Model(e.eventType)
    && stored.providerToolCallId == e.toolCallId && stored.lbeCallId == e.lbeCallId
  }

  ghost predicate PersistedAs(rows: Log, sessionId: string, turnId: string, events: seq<EventFields>) {
    && |rows| == |events|
    && forall i :: 0 <= i < |rows| ==> Carries(rows[i].event, sessionId, turnId, events[i])
  }

  ghost predicate EndsAs(events: seq<EventFields>, status: TurnStatus) {
    exists i :: 0 <= i < |events| && TerminalStatus(events[i].eventType) == Some(status)
  }

  /** `terminal` is the status the events stored so far give their turn. */
  ghost predicate Tracks(events: seq<EventFields>, terminal: Option<TurnStatus>) {
    && TerminalThenUsage(events)
    && (terminal.Some? <==> HasTerminal(events))
    && (terminal.Some? ==> EndsAs(events, terminal.value))
  }

  /** Events are stored in order until one follows a terminal event and is no usage update. */
  method StoreEvents(history: SessionOperationalHistory, sessionId: string, turnId: string, events: seq<EventFields>)
    returns (r: Result<Option<TurnStatus>, HistoryError>, persisted: Log)
    requires history.Valid() && turnId in history.turns
    modifies history`log
    ensures history.Valid() && history.log == old(history.log) + persisted
    ensures |persisted| <= |events| && PersistedAs(persisted, sessionId, turnId, events[..|persisted|])
    ensures r.Success? ==> |persisted| == |events| && Tracks(events, r.value)
    ensures r.Failure? ==> !TerminalThenUsage(events)
  {
    persisted := [];
    var terminal: Option<TurnStatus> := None;
    for i := 0 to |events|
      invariant history.Valid() && history.log == old(history.log) + persisted
      invariant |persisted| == i && PersistedAs(persisted, sessionId, turnId, events[..i])
      invariant Tracks(events[..i], terminal)
    {
      var e := events[i];
      if terminal.Some? && e.eventType != UsageUpdated {
        FollowsTerminal(events, i);
        return Failure(EventAfterTerminal), persisted;
      }
      StepTerminal(events, i, terminal);
      var appended := history.AppendEvent(Persisted(sessionId, turnId, e));
      PersistedStep(persisted, appended.value, sessionId, turnId, events);
      persisted := persisted + [appended.value];
      var status := TerminalStatus(e.eventType);
      terminal := if status.Some? then status else terminal;
    }
    assert events[..|events|] == events;
    return Success(terminal), persisted;
  }

  lemma PersistedStep(rows: Log, row: Row, sessionId: string, turnId: string, events: seq<EventFields>)
    requires |rows| < |events| && PersistedAs(rows, sessionId, turnId, events[..|rows|])
    requires Carries(row.event, sessionId, turnId, events[|rows|])
    ensures PersistedAs(rows + [row], sessionId, turnId, events[..|rows| + 1])
  {
    var before, after := events[..|rows|], events[..|rows| + 1];
    assert forall k :: 0 <= k < |rows| ==> after[k] == before[k];
  }

  lemma FollowsTerminal(events: seq<EventFields>, i: nat)
    requires i < |events| && HasTerminal(events[..i]) && events[i].eventType != UsageUpdated
    ensures !TerminalThenUsage(events)
  {
    var k :| 0 <= k < i && TerminalStatus(events[..i][k].eventType).Some?;
    assert events[k] == events[..i][k];
  }

  lemma StepTerminal(events: seq<EventFields>, i: nat, terminal: Option<TurnStatus>)
    requires i < |events| && Tracks(events[..i], terminal)
    requires terminal.Some? ==> events[i].eventType == UsageUpdated
    ensures var status := TerminalStatus(events[i].eventType);
            Tracks(events[..i + 1], if status.Some? then status else terminal)
  {
    var before, after := events[..i], events[..i + 1];
    assert after[i] == events[i] && forall k :: 0 <= k < i ==> after[k] == before[k];
    if terminal.Some? {
      var k :| 0 <= k < i && TerminalStatus(before[k].eventType) == Some(terminal.value);
      assert TerminalStatus(after[k].eventType) == Some(terminal.value);
    }
  }

  /** Stores the events, then finalises the turn if one of them was terminal. */
  method ProjectProviderEvents(history: SessionOperationalHistory, turnId: string, events: seq<EventFields>)
    returns (r: Result<Log, HistoryError>)
    requires history.Valid()
    modifies history`log, history`turns
    ensures history.Valid() && old(history.log) <= history.log
    ensures var turns := old(history.turns);
            r.Success? <==> turnId in turns && turns[turnId].status == Running && TerminalThenUsage(events)
    ensures r.Success? ==> history.log == old(history.log) + r.value
                           && PersistedAs(r.value, old(history.turns)[turnId].sessionId, turnId, events)
    ensures r.Success? && HasTerminal(events) ==>
              && turnId in history.turns && EndsAs(events, history.turns[turnId].status)
              && history.turns ==
                 old(history.turns)[turnId := old(history.turns)[turnId].(status := history.turns[turnId].status)]
    ensures r.Failure? || !HasTerminal(events) ==> history.turns == old(history.turns)
    ensures r.Failure? && (turnId !in old(history.turns) || old(history.turns)[turnId].status != Running) ==>
              history.log == old(history.log)
  {
    if turnId !in history.turns || history.turns[turnId].status != Running {
      return Failure(AlreadyFinalized);
    }
    var stored, persisted := StoreEvents(history, history.turns[turnId].sessionId, turnId, events);
    if stored.Failure? {
      return Failure(stored.error);
    }
    assert events[..|events|] == events;
    if stored.value.Some? {
      var _ := history.FinalizeTurn(turnId, stored.value.value);
    }
    return Success(persisted);
  }

  // ---------- replay of a projected turn ----------

  lemma {:induction false} InTurnAppend(log: Log, more: Log, turnId: string)
    requires forall i :: 0 <= i < |more| ==> more[i].event.turnId == turnId
    ensures InTurn(log + more, turnId) == InTurn(log, turnId) + more
    decreases |more|
  {
    if more == [] {
      assert log + more == log;
    } else {
      var init := more[..|more| - 1];
      assert (log + more)[..|log + more| - 1] == log + init;
      InTurnAppend(log, init, turnId);
      assert InTurn(log + init, turnId) + [more[|more| - 1]] == InTurn(log, turnId) + more;
    }
  }

  /** A turn finalised by projection replays to its stored status, whatever was stored before. */
  lemma ProjectionReplays(
    log: Log, rows: Log, sessionId: string, turnId: string, events: seq<EventFields>, status: TurnStatus)
    requires PersistedAs(rows, sessionId, turnId, events)
    requires TerminalThenUsage(events) && EndsAs(events, status)
    ensures ReplaysTo(InTurn(log + rows, turnId), status)
  {
    InTurnAppend(log, rows, turnId);
    PersistedStatuses(rows, sessionId, turnId, events);
    var i :| 0 <= i < |events| && TerminalStatus(events[i].eventType) == Some(status);
    assert forall j :: i < j < |events| ==> events[j].eventType == UsageUpdated;
    LastStatusReplays(InTurn(log, turnId), rows, i, status);
  }

  /** Replay reads a stored provider event as projection does. */
  lemma PersistedStatuses(rows: Log, sessionId: string, turnId: string, events: seq<EventFields>)
    requires PersistedAs(rows, sessionId, turnId, events)
    ensures forall i :: 0 <= i < |rows| ==> ReplayStatus(rows[i].event.eventType) == TerminalStatus(events[i].eventType)
  {}

  lemma LastStatusReplays(before: Log, rows: Log, i: nat, status: TurnStatus)
    requires i < |rows| && ReplayStatus(rows[i].event.eventType) == Some(status)
    requires forall j :: i < j < |rows| ==> ReplayStatus(rows[j].event.eventType) == None
    ensures ReplaysTo(before + rows, status)
  {
    var all, k := before + rows, |before| + i;
    assert all[k] == rows[i];
    assert forall j :: k < j < |all| ==> all[j] == rows[j - |before|];
  }

  // ---------- one provider turn ----------

  class NonStreamingProviderTurnRuntime {
    const history: SessionOperationalHistory
    const model: string
    const providerId: string
    var cancelledTurns: set<string>

    constructor (history: SessionOperationalHistory, model: string, providerId: string)
      ensures this.history == history && this.model == model && this.providerId == providerId
      ensures cancelledTurns == {}
    {
      this.history, this.model, this.providerId := history, model, providerId;
      cancelledTurns := {};
    }

    method Cancel(turnId: string)
      modifies this`cancelledTurns
      ensures cancelledTurns == old(cancelledTurns) + {turnId}
    {
      cancelledTurns := cancelledTurns + {turnId};
    }

    /** The event stored when the adapter or the projection raised. */
    method ProjectionError() returns (r: Result<EventFields, HistoryError>)
      ensures r.Success? <==> !Text.Blank(providerId) && !Text.Blank(model)
      ensures r.Success? ==> r.value == SubstitutedError(model, providerId) && Promised([r.value])
      ensures r.Success? ==>
                && r.value.eventType == ModelError && r.value.errorCode == Some("RUNTIME_PROVIDER_PROJECTION_ERROR")
                && r.value.providerId == providerId && r.value.modelId == model
                && r.value.toolCallId == None && r.value.lbeCallId == None && r.value.text == None
    {
      var error := SubstitutedError(model, providerId);
      var constructed := Construct(error);
      if constructed.Failure? {
        return Failure(InvalidEvent);
      }
      ErrorIsPromised(error);
      return Success(error);
    }

    ghost predicate Live(turnId: string)
      reads this, history
    {
      turnId in history.turns && history.turns[turnId].status == Running
    }

    /** A run with no concurrent cancel. It lets an exception out exactly when the turn is missing or
        finished or its own provider or model name is blank. Otherwise it stores the adapter's events,
        or the substituted error when the adapter raised, and gives the turn the status the answer
        stands for; a turn that got a final status replays to it. */
    method Run(turnId: string, transport: TransportOutcome, decode: string -> Option<Json>)
      returns (r: Result<Log, HistoryError>)
      requires history.Valid()
      modifies history`log, history`turns
      ensures history.Valid()
      ensures turnId in cancelledTurns ==> r == Success([])
      ensures turnId !in cancelledTurns ==>
                (r.Failure? <==> !old(Live(turnId)) || Text.Blank(providerId) || Text.Blank(model))
      ensures turnId in cancelledTurns || r.Failure? ==>
          history.turns == old(history.turns) && history.log == old(history.log)
      ensures r.Success? && turnId !in cancelledTurns ==>
                && history.log == old(history.log) + r.value
                && PersistedAs(r.value, old(history.turns)[turnId].sessionId, turnId,
                   RunEvents(model, providerId, transport, decode))
                && history.turns == GiveStatus(old(history.turns), turnId, AnsweredStatus(transport))
                && (AnsweredStatus(transport) != Running ==>
                   ReplaysTo(InTurn(history.log, turnId), AnsweredStatus(transport)))
    {
      var completed := Complete(model, providerId, transport, None, decode);
      if turnId in cancelledTurns {
        return Success([]);
      }
      if completed.Success? {
        CompletesIff(model, providerId, transport, None, decode);
      }
      if !Text.Blank(model) && !Text.Blank(providerId) {
        RunEventsStatus(model, providerId, transport, decode);
      }
      if completed.Success? {
        r := ProjectPromised(turnId, completed.value, AnsweredStatus(transport));
        if r.Success? {
          return;
        }
      }
      var error :- ProjectionError();
      ErrorGivesFailed([error], 0);
      r := ProjectPromised(turnId, [error], Failed);
    }

    /** Projection of events that keep the adapter's promise; it fails only on a turn that is not running. */
    method ProjectPromised(turnId: string, events: seq<EventFields>, ghost status: TurnStatus)
      returns (r: Result<Log, HistoryError>)
      requires history.Valid() && Promised(events) && GivesStatus(events, status)
      modifies history`log, history`turns
      ensures history.Valid()
      ensures r.Success? <==> old(Live(turnId))
      ensures r.Failure? ==> history.turns == old(history.turns) && history.log == old(history.log)
      ensures r.Success? ==>
                && history.log == old(history.log) + r.value
                && PersistedAs(r.value, old(history.turns)[turnId].sessionId, turnId, events)
                && history.turns == GiveStatus(old(history.turns), turnId, status)
                && (status != Running ==> ReplaysTo(InTurn(history.log, turnId), status))
    {
      r := ProjectProviderEvents(history, turnId, events);
      if r.Success? && HasTerminalEvent(events) {
        ProjectionReplays(old(history.log), r.value, old(history.turns)[turnId].sessionId, turnId, events, status);
      }
    }
  }

  // ---------- what a run makes of a provider's answer ----------

  function SubstitutedError(model: string, providerId: string): EventFields {
    Plain(ModelError, providerId, model, None).(errorCode := Some("RUNTIME_PROVIDER_PROJECTION_ERROR"))
  }

  /** The events a run stores; it supplies no call identifiers. */
  function RunEvents(
    model: string, providerId: string, transport: TransportOutcome, decode: string -> Option<Json>): seq<EventFields>
  {
    var answer := Completion(model, providerId, transport, None, decode);
    if answer.Some? then answer.value else [SubstitutedError(model, providerId)]
  }

  function FinishStatus(reason: Option<string>): TurnStatus {
    if reason == Some("tool_calls") then Running
    else if reason == Some("length") then Incomplete
    else if reason == Some("content_filter") || reason == Some("refusal") then Refused
    else Completed
  }

  /** The status a provider's answer stands for: anything but a well-formed message without tool
      calls is a failure, and of such a message the finish reason decides. */
  function AnsweredStatus(transport: TransportOutcome): TurnStatus {
    if !transport.Response? then Failed
    else
      var body, choice := transport.body, SingleChoice(transport.body);
      var message, reason := Get(choice, "message"), Get(choice, "finish_reason");
      if !message.Object? || !Get(message.fields, "tool_calls").Null? then Failed
      else if !AbsentOrNamed(Get(body, "id")) || !AbsentOrNamed(reason) || !CountsNamed(Usage(Get(body, "usage")))
        then Failed
      else FinishStatus(if reason.Str? then Some(Text.Strip(reason.s)) else None)
  }

  function GiveStatus(turns: map<string, Turn>, turnId: string, status: TurnStatus): map<string, Turn>
    requires turnId in turns
  {
    turns[turnId := turns[turnId].(status := status)]
  }

  /** The events end their turn with this status, or leave it running. */
  ghost predicate GivesStatus(events: seq<EventFields>, status: TurnStatus) {
    && (HasTerminal(events) <==> status != Running)
    && forall i :: 0 <= i < |events| && TerminalStatus(events[i].eventType).Some? ==>
         TerminalStatus(events[i].eventType) == Some(status)
  }

  lemma ErrorGivesFailed(events: seq<EventFields>, k: nat)
    requires k < |events| && events[k].eventType == ModelError
    requires forall i :: 0 <= i < |events| && i != k ==> TerminalStatus(events[i].eventType) == None
    ensures GivesStatus(events, Failed)
  {
    assert TerminalStatus(events[k].eventType) == Some(Failed);
  }

  lemma RunEventsStatus(model: string, providerId: string, transport: TransportOutcome, decode: string -> Option<Json>)
    requires !Text.Blank(model) && !Text.Blank(providerId)
    ensures var events := RunEvents(model, providerId, transport, decode);
            Promised(events) && GivesStatus(events, AnsweredStatus(transport))
  {
    if transport.Response? {
      AnswersIff(transport.body, providerId, Text.Strip(model), None, decode);
      Text.StripIdempotent(model);
    }
    var answer := Completion(model, providerId, transport, None, decode);
    if answer.None? || transport.ProviderError? {
      var events := RunEvents(model, providerId, transport, decode);
      ErrorIsPromised(events[0]);
      ErrorGivesFailed(events, 0);
    } else {
      AnswerIsPromised(transport.body, providerId, Text.Strip(model), None, decode);
      AnswerStatus(transport.body, providerId, Text.Strip(model), decode);
    }
  }

  lemma AnswerStatus(body: JsonObject, providerId: string, modelId: string, decode: string -> Option<Json>)
    requires Answer(body, providerId, modelId, None, decode).Some?
    ensures GivesStatus(Answer(body, providerId, modelId, None, decode).value, AnsweredStatus(Response(body)))
  {
    AnswersIff(body, providerId, modelId, None, decode);
    var events := Answer(body, providerId, modelId, None, decode).value;
    var message := Get(SingleChoice(body), "message");
    if !message.Object? {
      ErrorGivesFailed(events, 1);
    } else {
      var plain := Plain(TurnStarted, providerId, modelId, OptionalText(Get(body, "id")).value);
      MessageStatus(body, plain, message.fields, decode);
    }
  }

  lemma MessageStatus(body: JsonObject, plain: EventFields, message: JsonObject, decode: string -> Option<Json>)
    requires plain.eventType == TurnStarted && AnswerMessage(body, plain, message, None, decode).Some?
    requires AbsentOrNamed(Get(body, "id")) && Get(SingleChoice(body), "message") == Object(message)
    ensures GivesStatus(AnswerMessage(body, plain, message, None, decode).value, AnsweredStatus(Response(body)))
  {
    var raw, tools := Get(message, "tool_calls"), ToolPart(Get(message, "tool_calls"), plain, None, decode).value;
    var opening, trailer := MessagePart(plain, message), UsagePart(plain, Usage(Get(body, "usage")));
    var reason := OptionalText(Get(SingleChoice(body), "finish_reason"));
    var all := opening + tools + (trailer + FinishPart(plain, tools, reason.value));
    if raw.Null? {
      assert FinishPart(plain, tools, reason.value) == [plain.(eventType := FinishKind(reason.value))];
      LastGives(opening + tools + trailer, plain.(eventType := FinishKind(reason.value)), FinishStatus(reason.value));
      assert all == opening + tools + trailer + [plain.(eventType := FinishKind(reason.value))];
    } else {
      assert tools[0].eventType == ModelError && |tools| == 1 && FinishPart(plain, tools, reason.value) == [];
      ErrorGivesFailed(all, |opening|);
    }
  }

  lemma LastGives(before: seq<EventFields>, last: EventFields, status: TurnStatus)
    requires forall i :: 0 <= i < |before| ==> TerminalStatus(before[i].eventType) == None
    requires TerminalStatus(last.eventType) == if status == Running then None else Some(status)
    ensures GivesStatus(before + [last], status)
  {
    var all := before + [last];
    assert all[|before|] == last;
  }

  predicate HasTerminalEvent(events: seq<EventFields>)
    ensures HasTerminalEvent(events) <==> HasTerminal(events)
  {
    exists i | 0 <= i < |events| :: TerminalStatus(events[i].eventType).Some?
  }
}
