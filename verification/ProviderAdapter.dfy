/** Normalisation of one complete OpenAI-compatible response into provider events. */
module ProviderAdapter {
  import opened Sequences
  import opened OperationalHistory
  import opened JsonModel
  import Text

  datatype EventFields = EventFields(
    eventType: ModelEventType, providerId: string, modelId: string, providerRequestId: Option<string>,
    toolCallId: Option<string>, lbeCallId: Option<string>, text: Option<string>,
    toolName: Option<string>, toolArguments: Option<JsonObject>, usage: Option<map<string, int>>,
    errorCode: Option<string>)

  /** What `post_json` did: a ProviderError with its code, another exception, or a body. */
  datatype TransportOutcome = ProviderError(code: string) | TransportRaised | Response(body: JsonObject)

  // ---------- the event contract ----------

  predicate Named(value: Option<string>) {
    value.Some? && !Text.Blank(value.value)
  }

  predicate UnnamedOr(value: Option<string>) {
    value.Some? ==> !Text.Blank(value.value)
  }

  /** The checks of `NormalizedModelEvent.__post_init__`. */
  predicate Constructible(e: EventFields) {
    && !Text.Blank(e.providerId) && !Text.Blank(e.modelId)
    && UnnamedOr(e.providerRequestId) && UnnamedOr(e.toolCallId) && UnnamedOr(e.lbeCallId)
    && UnnamedOr(e.toolName) && UnnamedOr(e.errorCode)
    && (e.eventType in {MessageDelta, ReasoningSummaryDelta, ToolCallArgumentsDelta} ==> Named(e.text))
    && (e.eventType in {ToolCallStarted, ToolCallArgumentsDelta, ToolCallCompleted} ==>
          Named(e.toolCallId) && Named(e.lbeCallId))
    && (e.eventType == ToolCallCompleted ==> Named(e.toolName) && e.toolArguments.Some?)
    && (e.eventType == UsageUpdated ==>
          e.usage.Some? && forall k :: k in e.usage.value ==> !Text.Blank(k) && e.usage.value[k] >= 0)
    && (e.eventType == ModelError ==> Named(e.errorCode))
  }

  type NormalizedEvent = e: EventFields | Constructible(e)
    witness Plain(TurnStarted, "p", "m", None)

  method Construct(e: EventFields) returns (r: Result<NormalizedEvent, string>)
    ensures r.Success? <==> Constructible(e)
    ensures r.Success? ==> r.value == e
  {
    if Constructible(e) {
      return Success(e);
    }
    return Failure("ValueError");
  }

  /** The statuses a provider event can give its turn. */
  function TerminalStatus(t: ModelEventType): Option<TurnStatus> {
    match t
    case TurnCompleted => Some(Completed)
    case TurnIncomplete => Some(Incomplete)
    case TurnRefused => Some(Refused)
    case ModelCancelled => Some(Cancelled)
    case ModelError => Some(Failed)
    case _ => None
  }

  // ---------- what the adapter promises about its events ----------

  ghost predicate TerminalThenUsage(events: seq<EventFields>) {
    forall i, j :: 0 <= i < j < |events| && TerminalStatus(events[i].eventType).Some? ==>
      events[j].eventType == UsageUpdated
  }

  ghost predicate ToolPairs(events: seq<EventFields>) {
    forall i :: 0 <= i < |events| ==> PairedAt(events, i)
  }

  ghost predicate PairedAt(events: seq<EventFields>, i: nat)
    requires i < |events|
  {
    && (events[i].eventType == ToolCallStarted ==>
          && i + 1 < |events| && events[i + 1].eventType == ToolCallCompleted
          && events[i].toolCallId == events[i + 1].toolCallId && events[i].lbeCallId == events[i + 1].lbeCallId)
    && (events[i].eventType == ToolCallCompleted ==> i > 0 && events[i - 1].eventType == ToolCallStarted)
  }

  ghost predicate HasTerminal(events: seq<EventFields>) {
    exists i :: 0 <= i < |events| && TerminalStatus(events[i].eventType).Some?
  }

  ghost predicate RequiresTool(events: seq<EventFields>) {
    events != [] && events[|events| - 1].eventType == TurnRequiresTool
  }

  ghost predicate Promised(events: seq<EventFields>) {
    && TerminalThenUsage(events) && ToolPairs(events)
    && (HasTerminal(events) <==> !RequiresTool(events))
    && NeverCancelled(events)
  }

  ghost predicate NeverCancelled(events: seq<EventFields>) {
    forall i :: 0 <= i < |events| ==> events[i].eventType != ModelCancelled
  }

  // ---------- reading the response ----------

  function RequiredString(value: Json): Result<string, string> {
    if value.Str? && Text.Required(value.s).Some? then Success(Text.Required(value.s).value) else Failure("ValueError")
  }

  function OptionalText(value: Json): Result<Option<string>, string> {
    if value.Null? then Success(None)
    else
      var s :- RequiredString(value);
      Success(Some(s))
  }

  function SingleChoice(body: JsonObject): JsonObject {
    var choices := Get(body, "choices");
    if choices.List? && |choices.items| == 1 && choices.items[0].Object? then choices.items[0].fields else map[]
  }

  function Usage(value: Json): Option<map<string, int>> {
    if !value.Object? then None
    else
      var counts := map k | k in value.fields && value.fields[k].Int? && value.fields[k].i >= 0 :: value.fields[k].i;
      if counts == map[] then None else Some(counts)
  }

  /** `decode` is the JSON text decoder. */
  function ToolArguments(value: Json, decode: string -> Option<Json>): Result<JsonObject, string> {
    if value.Str? && decode(value.s).Some? && decode(value.s).value.Object?
    then Success(decode(value.s).value.fields)
    else Failure("ValueError")
  }

  function Plain(eventType: ModelEventType, providerId: string, modelId: string, requestId: Option<string>)
    : EventFields
  {
    EventFields(eventType, providerId, modelId, requestId, None, None, None, None, None, None, None)
  }

  /** `None` when the callable that supplies LBE call identifiers raises. */
  type CallIds = string -> Option<string>

  function ErrorEvent(plain: EventFields, code: string): EventFields {
    plain.(eventType := ModelError, errorCode := Some(code))
  }

  function ResponseError(plain: EventFields): (e: EventFields)
    ensures Constructible(plain) ==> Constructible(e)
  {
    ErrorEvent(plain, "PROVIDER_RESPONSE_ERROR")
  }

  function MissingIds(plain: EventFields): (e: EventFields)
    ensures Constructible(plain) ==> Constructible(e)
  {
    ErrorEvent(plain, "LBE_CALL_ID_REQUIRED")
  }

  // ---------- what the adapter answers ----------

  /** One requested call: a started/completed pair, an error event, or an exception. */
  datatype CallReading = Pair(started: EventFields, completed: EventFields) | MalformedCall | RaisingCall

  /** `plain` carries the provider, the model and the request of the response. */
  function ReadToolCall(call: Json, plain: EventFields, ids: CallIds, decode: string -> Option<Json>): CallReading {
    if !call.Object? then MalformedCall
    else
      var id, requested := RequiredString(Get(call.fields, "id")), Get(call.fields, "function");
      if id.Failure? then RaisingCall
      else if !requested.Object? then MalformedCall
      else
        var name := RequiredString(Get(requested.fields, "name"));
        var arguments := ToolArguments(Get(requested.fields, "arguments"), decode);
        var lbeId := ids(id.value);
        if name.Failure? || arguments.Failure? || lbeId.None? || Text.Blank(lbeId.value) then RaisingCall
        else PairOf(plain, id.value, Text.Strip(lbeId.value), name.value, arguments.value)
  }

  function PairOf(plain: EventFields, id: string, lbeId: string, name: string, arguments: JsonObject): CallReading {
    var started := plain.(eventType := ToolCallStarted, toolCallId := Some(id), lbeCallId := Some(lbeId));
    Pair(started, started.(eventType := ToolCallCompleted, toolName := Some(name), toolArguments := Some(arguments)))
  }

  /** The calls up to the first one that is not a pair. */
  datatype CallsReading = AllPairs(events: seq<EventFields>) | SomeMalformed | SomeRaises

  function Combined(readings: seq<CallReading>): CallsReading {
    if readings == [] then AllPairs([])
    else
      match Combined(readings[..|readings| - 1])
      case AllPairs(events) =>
        (match readings[|readings| - 1]
         case Pair(started, completed) => AllPairs(events + [started, completed])
         case MalformedCall => SomeMalformed
         case RaisingCall => SomeRaises)
      case stopped => stopped
  }

  function Readings(
    calls: seq<Json>, plain: EventFields, ids: CallIds, decode: string -> Option<Json>): seq<CallReading>
  {
    seq(|calls|, i requires 0 <= i < |calls| => ReadToolCall(calls[i], plain, ids, decode))
  }

  /** The events for "tool_calls"; `None` stands for an exception. */
  function ToolPart(
    raw: Json, plain: EventFields, ids: Option<CallIds>, decode: string -> Option<Json>): Option<seq<EventFields>>
  {
    if raw.Null? then Some([])
    else if !raw.List? then Some([ResponseError(plain)])
    else if ids.None? then Some([MissingIds(plain)])
    else
      match Combined(Readings(raw.items, plain, ids.value, decode))
      case AllPairs(events) => Some(events)
      case SomeMalformed => Some([ResponseError(plain)])
      case SomeRaises => None
  }

  function MessagePart(plain: EventFields, message: JsonObject): seq<EventFields> {
    var content := Get(message, "content");
    if content.Str? && !Text.Blank(content.s)
    then [plain, plain.(eventType := MessageCompleted, text := Some(content.s))]
    else [plain]
  }

  predicate CountsNamed(usage: Option<map<string, int>>) {
    usage.Some? ==> forall k :: k in usage.value ==> !Text.Blank(k)
  }

  function UsagePart(plain: EventFields, usage: Option<map<string, int>>): seq<EventFields> {
    if usage.None? then [] else [plain.(eventType := UsageUpdated, usage := usage)]
  }

  /** The event a turn without tool calls ends with. */
  function FinishKind(reason: Option<string>): ModelEventType {
    if reason == Some("tool_calls") then TurnRequiresTool
    else if reason == Some("length") then TurnIncomplete
    else if reason == Some("content_filter") || reason == Some("refusal") then TurnRefused
    else TurnCompleted
  }

  predicate HasError(events: seq<EventFields>) {
    exists i | 0 <= i < |events| :: events[i].eventType == ModelError
  }

  function FinishPart(plain: EventFields, tools: seq<EventFields>, reason: Option<string>): seq<EventFields> {
    if HasError(tools) then []
    else [plain.(eventType := if tools != [] then TurnRequiresTool else FinishKind(reason))]
  }

  function AnswerMessage(
    body: JsonObject, plain: EventFields, message: JsonObject, ids: Option<CallIds>, decode: string -> Option<Json>)
    : Option<seq<EventFields>>
  {
    var tools, usage := ToolPart(Get(message, "tool_calls"), plain, ids, decode), Usage(Get(body, "usage"));
    var reason := OptionalText(Get(SingleChoice(body), "finish_reason"));
    if tools.None? || !CountsNamed(usage) || reason.Failure? then None
    else
      var trailer := UsagePart(plain, usage) + FinishPart(plain, tools.value, reason.value);
      Some(MessagePart(plain, message) + tools.value + trailer)
  }

  /** The events of a response body; `None` stands for an exception. */
  function Answer(
    body: JsonObject, providerId: string, modelId: string, ids: Option<CallIds>, decode: string -> Option<Json>)
    : Option<seq<EventFields>>
  {
    var requestId, message := OptionalText(Get(body, "id")), Get(SingleChoice(body), "message");
    if Text.Blank(providerId) || Text.Blank(modelId) || requestId.Failure? then None
    else
      var plain := Plain(TurnStarted, providerId, modelId, requestId.value);
      if message.Object? then AnswerMessage(body, plain, message.fields, ids, decode)
      else Some([plain, ResponseError(plain)])
  }

  /** The events of one provider call; `None` stands for an exception. */
  function Completion(
    model: string, providerId: string, transport: TransportOutcome, ids: Option<CallIds>,
    decode: string -> Option<Json>)
    : Option<seq<EventFields>>
  {
    match transport
    case TransportRaised => None
    case ProviderError(code) =>
      if Text.Blank(providerId) || Text.Blank(model) || Text.Blank(code) then None
      else Some([ErrorEvent(Plain(ModelError, providerId, Text.Strip(model), None), code)])
    case Response(body) => Answer(body, providerId, Text.Strip(model), ids, decode)
  }

  // ---------- the adapter ----------

  lemma RequiredIsNamed(value: Json)
    ensures RequiredString(value).Success? ==> !Text.Blank(RequiredString(value).value)
  {
    if value.Str? {
      Text.StripIdempotent(value.s);
    }
  }

  method ToolCallEvents(call: Json, plain: NormalizedEvent, ids: CallIds, decode: string -> Option<Json>)
    returns (r: Result<Option<(NormalizedEvent, NormalizedEvent)>, string>)
    ensures match ReadToolCall(call, plain, ids, decode)
            case Pair(started, completed) => r == Success(Some((started, completed)))
            case MalformedCall => r == Success(None)
            case RaisingCall => r.Failure?
  {
    if !call.Object? {
      return Success(None);
    }
    RequiredIsNamed(Get(call.fields, "id"));
    var toolCallId :- RequiredString(Get(call.fields, "id"));
    var requested := Get(call.fields, "function");
    if !requested.Object? {
      return Success(None);
    }
    RequiredIsNamed(Get(requested.fields, "name"));
    var toolName :- RequiredString(Get(requested.fields, "name"));
    var arguments :- ToolArguments(Get(requested.fields, "arguments"), decode);
    var supplied := ids(toolCallId);
    if supplied.None? {
      return Failure("raised");
    }
    RequiredIsNamed(Str(supplied.value));
    var lbeCallId :- RequiredString(Str(supplied.value));
    return Success(Some(PairEvents(plain, toolCallId, lbeCallId, toolName, arguments)));
  }

  function PairEvents(plain: NormalizedEvent, id: string, lbeId: string, name: string, arguments: JsonObject)
    : (NormalizedEvent, NormalizedEvent)
    requires !Text.Blank(id) && !Text.Blank(lbeId) && !Text.Blank(name)
  {
    var pair := PairOf(plain, id, lbeId, name, arguments);
    (pair.started, pair.completed)
  }

  lemma CombinedStep(readings: seq<CallReading>, i: nat)
    requires i < |readings| && Combined(readings[..i]).AllPairs?
    ensures Combined(readings[..i + 1]) ==
            match readings[i]
            case Pair(started, completed) => AllPairs(Combined(readings[..i]).events + [started, completed])
            case MalformedCall => SomeMalformed
            case RaisingCall => SomeRaises
  {
    assert readings[..i + 1][..i] == readings[..i];
  }

  lemma {:induction false} Stopped(readings: seq<CallReading>, i: nat)
    requires i <= |readings| && !Combined(readings[..i]).AllPairs?
    ensures Combined(readings) == Combined(readings[..i])
    decreases |readings|
  {
    if i == |readings| {
      assert readings[..i] == readings;
    } else {
      assert readings[..|readings| - 1][..i] == readings[..i];
      Stopped(readings[..|readings| - 1], i);
    }
  }

  /** `Success(None)`: a malformed call turns all of them into one error. */
  method CallEvents(calls: seq<Json>, plain: NormalizedEvent, ids: CallIds, decode: string -> Option<Json>)
    returns (r: Result<Option<seq<NormalizedEvent>>, string>)
    ensures match Combined(Readings(calls, plain, ids, decode))
            case AllPairs(events) => r == Success(Some(events))
            case SomeMalformed => r == Success(None)
            case SomeRaises => r.Failure?
  {
    var events: seq<NormalizedEvent> := [];
    ghost var readings := Readings(calls, plain, ids, decode);
    for i := 0 to |calls|
      invariant Combined(readings[..i]) == AllPairs(events)
    {
      CombinedStep(readings, i);
      var pair := ToolCallEvents(calls[i], plain, ids, decode);
      if pair.Failure? || pair.value.None? {
        Stopped(readings, i + 1);
        return if pair.Failure? then Failure(pair.error) else Success(None);
      }
      events := events + [pair.value.value.0, pair.value.value.1];
    }
    assert readings[..|calls|] == readings;
    return Success(Some(events));
  }

  method ToolEvents(raw: Json, plain: NormalizedEvent, ids: Option<CallIds>, decode: string -> Option<Json>)
    returns (r: Result<seq<NormalizedEvent>, string>)
    ensures r.Success? <==> ToolPart(raw, plain, ids, decode).Some?
    ensures r.Success? ==> r.value == ToolPart(raw, plain, ids, decode).value
  {
    if raw.Null? {
      return Success([]);
    }
    var malformed: NormalizedEvent := ResponseError(plain);
    if !raw.List? {
      return Success([malformed]);
    }
    if ids.None? {
      return Success([MissingIds(plain)]);
    }
    var events :- CallEvents(raw.items, plain, ids.value, decode);
    return Success(if events.Some? then events.value else [malformed]);
  }

  method MessageEvents(plain: NormalizedEvent, message: JsonObject) returns (events: seq<NormalizedEvent>)
    requires plain.eventType == TurnStarted
    ensures events == MessagePart(plain, message)
  {
    events := [plain];
    var content := Get(message, "content");
    if content.Str? && !Text.Blank(content.s) {
      events := events + [plain.(eventType := MessageCompleted, text := Some(content.s))];
    }
  }

  method UsageEvents(plain: NormalizedEvent, usage: Option<map<string, int>>)
    returns (r: Result<seq<NormalizedEvent>, string>)
    requires usage.Some? ==> forall k :: k in usage.value ==> usage.value[k] >= 0
    ensures r.Success? <==> CountsNamed(usage)
    ensures r.Success? ==> r.value == UsagePart(plain, usage)
  {
    if usage.None? {
      return Success([]);
    }
    var e :- Construct(plain.(eventType := UsageUpdated, usage := usage));
    return Success([e]);
  }

  /** The part of `complete` that runs once a message was found. */
  method NormalizeMessage(
    body: JsonObject, plain: NormalizedEvent, message: JsonObject, ids: Option<CallIds>, decode: string -> Option<Json>)
    returns (r: Result<seq<NormalizedEvent>, string>)
    requires plain.eventType == TurnStarted
    ensures r.Success? <==> AnswerMessage(body, plain, message, ids, decode).Some?
    ensures r.Success? ==> r.value == AnswerMessage(body, plain, message, ids, decode).value
  {
    var opening := MessageEvents(plain, message);
    var tools :- ToolEvents(Get(message, "tool_calls"), plain, ids, decode);
    var trailer :- UsageEvents(plain, Usage(Get(body, "usage")));
    var reason :- OptionalText(Get(SingleChoice(body), "finish_reason"));
    var last := FinishEvents(plain, tools, reason);
    return Success(opening + tools + (trailer + last));
  }

  /** A tool error already ended the turn; otherwise the finish reason does. */
  method FinishEvents(plain: NormalizedEvent, tools: seq<NormalizedEvent>, reason: Option<string>)
    returns (events: seq<NormalizedEvent>)
    ensures events == FinishPart(plain, tools, reason)
  {
    if HasError(tools) {
      return [];
    }
    return [plain.(eventType := if tools != [] then TurnRequiresTool else FinishKind(reason))];
  }

  method Normalize(
    body: JsonObject, providerId: string, modelId: string, ids: Option<CallIds>, decode: string -> Option<Json>)
    returns (r: Result<seq<NormalizedEvent>, string>)
    ensures r.Success? <==> Answer(body, providerId, modelId, ids, decode).Some?
    ensures r.Success? ==> r.value == Answer(body, providerId, modelId, ids, decode).value
  {
    RequiredIsNamed(Get(body, "id"));
    var requestId :- OptionalText(Get(body, "id"));
    var plain :- Construct(Plain(TurnStarted, providerId, modelId, requestId));
    var message := Get(SingleChoice(body), "message");
    if !message.Object? {
      return Success([plain, ResponseError(plain)]);
    }
    r := NormalizeMessage(body, plain, message.fields, ids, decode);
  }

  method Complete(
    model: string, providerId: string, transport: TransportOutcome, ids: Option<CallIds>,
    decode: string -> Option<Json>)
    returns (r: Result<seq<NormalizedEvent>, string>)
    ensures r.Success? <==> Completion(model, providerId, transport, ids, decode).Some?
    ensures r.Success? ==> r.value == Completion(model, providerId, transport, ids, decode).value
    ensures r.Success? ==> Promised(r.value)
  {
    if Text.Blank(providerId) {
      return Failure("ValueError");
    }
    var modelId := Text.Strip(model);
    Text.StripIdempotent(model);
    match transport
    case TransportRaised => return Failure("raised");
    case ProviderError(code) =>
      var e :- Construct(ErrorEvent(Plain(ModelError, providerId, modelId, None), code));
      ErrorIsPromised(e);
      return Success([e]);
    case Response(body) =>
      r := Normalize(body, providerId, modelId, ids, decode);
      if r.Success? {
        AnswerIsPromised(body, providerId, modelId, ids, decode);
      }
  }

  // ---------- when it answers ----------

  /** The first call that is not a pair raises. */
  ghost predicate RaisesAt(readings: seq<CallReading>, k: nat) {
    && k < |readings| && readings[k].RaisingCall?
    && forall j :: 0 <= j < k ==> readings[j].Pair?
  }

  lemma {:induction false} RaisesIff(readings: seq<CallReading>)
    ensures Combined(readings).AllPairs? <==> forall j :: 0 <= j < |readings| ==> readings[j].Pair?
    ensures Combined(readings).SomeRaises? <==> exists k: nat :: RaisesAt(readings, k)
  {
    if readings != [] {
      var init := readings[..|readings| - 1];
      RaisesIff(init);
      forall k: nat | k < |init| ensures RaisesAt(init, k) <==> RaisesAt(readings, k) {
        assert forall j :: 0 <= j <= k ==> init[j] == readings[j];
      }
      if Combined(readings).SomeRaises? {
        assert RaisesAt(readings, |init|) || exists k: nat :: RaisesAt(init, k);
      }
      if k: nat :| RaisesAt(readings, k) {
        assert k < |init| ==> RaisesAt(init, k);
      }
    }
  }

  /** Null, or text that is not blank. */
  predicate AbsentOrNamed(value: Json) {
    value.Null? || (value.Str? && !Text.Blank(value.s))
  }

  ghost predicate ToolCallsRaise(
    raw: Json, plain: EventFields, ids: Option<CallIds>, decode: string -> Option<Json>)
  {
    raw.List? && ids.Some? && exists k: nat :: RaisesAt(Readings(raw.items, plain, ids.value, decode), k)
  }

  /** The optional texts are well formed, the counts of the usage are named, and no requested call
      raises before a malformed one. */
  ghost predicate Readable(
    body: JsonObject, providerId: string, modelId: string, ids: Option<CallIds>, decode: string -> Option<Json>)
  {
    var message := Get(SingleChoice(body), "message");
    && AbsentOrNamed(Get(body, "id"))
    && (message.Object? ==>
          var plain := Plain(TurnStarted, providerId, modelId, OptionalText(Get(body, "id")).value);
          && AbsentOrNamed(Get(SingleChoice(body), "finish_reason"))
          && CountsNamed(Usage(Get(body, "usage")))
          && !ToolCallsRaise(Get(message.fields, "tool_calls"), plain, ids, decode))
  }

  /** The adapter returns events exactly when provider and model are named and the transport gave a
      named error or a readable body. */
  lemma CompletesIff(
    model: string, providerId: string, transport: TransportOutcome, ids: Option<CallIds>,
    decode: string -> Option<Json>)
    ensures Completion(model, providerId, transport, ids, decode).Some? <==>
              && !Text.Blank(providerId) && !Text.Blank(model)
              && match transport
                 case TransportRaised => false
                 case ProviderError(code) => !Text.Blank(code)
                 case Response(body) => Readable(body, providerId, Text.Strip(model), ids, decode)
  {
    Text.StripIdempotent(model);
    if transport.Response? {
      AnswersIff(transport.body, providerId, Text.Strip(model), ids, decode);
    }
  }

  lemma AnswersIff(
    body: JsonObject, providerId: string, modelId: string, ids: Option<CallIds>, decode: string -> Option<Json>)
    ensures Answer(body, providerId, modelId, ids, decode).Some? <==>
              !Text.Blank(providerId) && !Text.Blank(modelId) && Readable(body, providerId, modelId, ids, decode)
  {
    var message := Get(SingleChoice(body), "message");
    if AbsentOrNamed(Get(body, "id")) && message.Object? {
      var raw := Get(message.fields, "tool_calls");
      if raw.List? && ids.Some? {
        var plain := Plain(TurnStarted, providerId, modelId, OptionalText(Get(body, "id")).value);
        RaisesIff(Readings(raw.items, plain, ids.value, decode));
      }
    }
  }

  ghost predicate Opening(events: seq<EventFields>) {
    forall i :: 0 <= i < |events| ==> events[i].eventType in {TurnStarted, MessageCompleted}
  }

  ghost predicate Trailer(events: seq<EventFields>) {
    forall i :: 0 <= i < |events| ==> events[i].eventType == UsageUpdated
  }

  lemma ErrorIsPromised(e: EventFields)
    requires e.eventType == ModelError
    ensures Promised([e])
  {
    assert TerminalStatus([e][0].eventType).Some?;
  }

  lemma NoMessageEvents(started: EventFields, e: EventFields)
    requires started.eventType == TurnStarted && e.eventType == ModelError
    ensures Promised([started, e])
  {
    assert TerminalStatus([started, e][1].eventType).Some?;
  }

  /** The events for "tool_calls": whole pairs, or one error. */
  lemma ToolPartShape(raw: Json, plain: EventFields, ids: Option<CallIds>, decode: string -> Option<Json>)
    requires ToolPart(raw, plain, ids, decode).Some?
    ensures var tools := ToolPart(raw, plain, ids, decode).value;
            if HasError(tools) then |tools| == 1
            else ToolPairs(tools) && forall i :: 0 <= i < |tools| ==> !NotTool(tools[i].eventType)
  {
    if raw.List? && ids.Some? && Combined(Readings(raw.items, plain, ids.value, decode)).AllPairs? {
      ReadPairs(raw.items, plain, ids.value, decode);
    }
  }

  lemma ReadPairs(calls: seq<Json>, plain: EventFields, ids: CallIds, decode: string -> Option<Json>)
    requires Combined(Readings(calls, plain, ids, decode)).AllPairs?
    ensures var tools := Combined(Readings(calls, plain, ids, decode)).events;
            && !HasError(tools) && ToolPairs(tools)
            && forall i :: 0 <= i < |tools| ==> !NotTool(tools[i].eventType)
  {
    var readings := Readings(calls, plain, ids, decode);
    RaisesIff(readings);
    PairsArePaired(readings);
  }

  lemma ErrorEndsIt(opening: seq<EventFields>, tools: seq<EventFields>, trailer: seq<EventFields>)
    requires Opening(opening) && HasError(tools) && |tools| == 1 && Trailer(trailer)
    ensures Promised(opening + tools + trailer)
  {
    var all := opening + tools + trailer;
    PairsInside(opening, tools, trailer);
    assert all[|opening|] == tools[0];
  }

  /** Whatever the response, terminal events are followed by usage updates only, tool events come in
      pairs, and there is a terminal event unless the last one asks for a tool. */
  lemma AnswerIsPromised(
    body: JsonObject, providerId: string, modelId: string, ids: Option<CallIds>, decode: string -> Option<Json>)
    requires Answer(body, providerId, modelId, ids, decode).Some?
    ensures Promised(Answer(body, providerId, modelId, ids, decode).value)
  {
    var plain := Plain(TurnStarted, providerId, modelId, OptionalText(Get(body, "id")).value);
    var message := Get(SingleChoice(body), "message");
    if message.Object? {
      MessageIsPromised(body, plain, message.fields, ids, decode);
    } else {
      NoMessageEvents(plain, ResponseError(plain));
    }
  }

  lemma MessageIsPromised(
    body: JsonObject, plain: EventFields, message: JsonObject, ids: Option<CallIds>, decode: string -> Option<Json>)
    requires plain.eventType == TurnStarted && AnswerMessage(body, plain, message, ids, decode).Some?
    ensures Promised(AnswerMessage(body, plain, message, ids, decode).value)
  {
    var tools := ToolPart(Get(message, "tool_calls"), plain, ids, decode).value;
    var opening, trailer := MessagePart(plain, message), UsagePart(plain, Usage(Get(body, "usage")));
    var reason := OptionalText(Get(SingleChoice(body), "finish_reason")).value;
    ToolPartShape(Get(message, "tool_calls"), plain, ids, decode);
    if HasError(tools) {
      assert trailer + FinishPart(plain, tools, reason) == trailer;
      ErrorEndsIt(opening, tools, trailer);
    } else {
      FinishedEvents(opening, tools, trailer, FinishPart(plain, tools, reason)[0]);
    }
  }

  lemma OnlyLastEnds(events: seq<EventFields>, last: EventFields)
    requires forall i :: 0 <= i < |events| ==> TerminalStatus(events[i].eventType) == None
    requires last.eventType in {TurnRequiresTool, TurnIncomplete, TurnRefused, TurnCompleted}
    ensures TerminalThenUsage(events + [last])
    ensures HasTerminal(events + [last]) <==> !RequiresTool(events + [last])
  {
    var all := events + [last];
    assert all[|events|] == last;
    assert forall i :: 0 <= i < |events| ==> all[i] == events[i];
  }

  lemma FinishedEvents(
    opening: seq<EventFields>, tools: seq<EventFields>, trailer: seq<EventFields>, last: EventFields)
    requires Opening(opening) && Trailer(trailer) && ToolPairs(tools)
    requires forall i :: 0 <= i < |tools| ==> !NotTool(tools[i].eventType)
    requires last.eventType in {TurnRequiresTool, TurnIncomplete, TurnRefused, TurnCompleted}
    ensures Promised(opening + tools + (trailer + [last]))
  {
    PairsInside(opening, tools, trailer + [last]);
    var before := opening + tools + trailer;
    OnlyLastEnds(before, last);
    assert before + [last] == opening + tools + (trailer + [last]);
  }

  predicate NotTool(t: ModelEventType) {
    t != ToolCallStarted && t != ToolCallCompleted
  }

  /** A started event and the matching completed event. */
  ghost predicate IsToolPair(r: CallReading) {
    && r.Pair? && r.started.eventType == ToolCallStarted && r.completed.eventType == ToolCallCompleted
    && r.started.toolCallId == r.completed.toolCallId && r.started.lbeCallId == r.completed.lbeCallId
  }

  /** Events built call by call: one adjacent pair per call, in order, with equal identifiers. */
  lemma {:induction false} PairsArePaired(readings: seq<CallReading>)
    requires forall k :: 0 <= k < |readings| ==> IsToolPair(readings[k])
    ensures Combined(readings).AllPairs?
    ensures var events := Combined(readings).events;
            && |events| == 2 * |readings| && ToolPairs(events)
            && (events != [] ==> events[|events| - 1].eventType == ToolCallCompleted)
            && (forall i :: 0 <= i < |events| ==> !NotTool(events[i].eventType))
            && forall k :: 0 <= k < |readings| ==> readings[k] == Pair(events[2 * k], events[2 * k + 1])
  {
    if readings != [] {
      var init := readings[..|readings| - 1];
      PairsArePaired(init);
      var before, events := Combined(init).events, Combined(readings).events;
      forall i | 0 <= i < |events| ensures PairedAt(events, i) && !NotTool(events[i].eventType) {
        if i < |before| {
          assert PairedAt(before, i) && events[i] == before[i];
          assert i + 1 < |before| ==> events[i + 1] == before[i + 1];
          assert i > 0 ==> events[i - 1] == before[i - 1];
        }
      }
    }
  }

  /** Whole pairs stay pairs between events of other kinds. */
  lemma PairsInside(before: seq<EventFields>, tools: seq<EventFields>, after: seq<EventFields>)
    requires ToolPairs(tools)
    requires forall i :: 0 <= i < |before| ==> NotTool(before[i].eventType)
    requires forall i :: 0 <= i < |after| ==> NotTool(after[i].eventType)
    ensures ToolPairs(before + tools + after)
  {
    var all := before + tools + after;
    forall i | 0 <= i < |all| ensures PairedAt(all, i) {
      if |before| <= i < |before| + |tools| {
        var k := i - |before|;
        assert all[i] == tools[k] && PairedAt(tools, k);
        assert k + 1 < |tools| ==> all[i + 1] == tools[k + 1];
        assert k > 0 ==> all[i - 1] == tools[k - 1];
      }
    }
  }
}
