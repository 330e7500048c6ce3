/** What the events of a provider response carry, read off the raw response: stamps, message text,
    tool calls, usage, errors and the finish. */
module ResponseContents {
  import opened Sequences
  import opened OperationalHistory
  import opened JsonModel
  import opened ProviderAdapter
  import Text

  // ---------- the raw response ----------

  /** The response has exactly one choice, an object, and this is its message. */
  ghost predicate OnlyMessage(body: JsonObject, message: JsonObject) {
    && "choices" in body && body["choices"].List? && |body["choices"].items| == 1
    && body["choices"].items[0].Object?
    && "message" in body["choices"].items[0].fields
    && body["choices"].items[0].fields["message"] == Object(message)
  }

  ghost predicate HasText(message: JsonObject) {
    "content" in message && message["content"].Str? && !Text.Blank(message["content"].s)
  }

  /** The key is there with something other than null. */
  ghost predicate Given(o: JsonObject, key: string) {
    key in o && o[key] != Null
  }

  /** A well-formed request: text identifier, a named function with arguments that decode to an
      object, and an identifier supplied for it. */
  ghost predicate CallOk(call: Json, ids: CallIds, decode: string -> Option<Json>) {
    && call.Object? && "id" in call.fields && call.fields["id"].Str? && !Text.Blank(call.fields["id"].s)
    && ids(Text.Strip(call.fields["id"].s)).Some? && !Text.Blank(ids(Text.Strip(call.fields["id"].s)).value)
    && "function" in call.fields && call.fields["function"].Object?
    && (var f := call.fields["function"].fields;
        && "name" in f && f["name"].Str? && !Text.Blank(f["name"].s)
        && "arguments" in f && f["arguments"].Str?
        && decode(f["arguments"].s).Some? && decode(f["arguments"].s).value.Object?)
  }

  /** A request that is an object but has no identifier, or names a function object and is not well
      formed: reading it raises. */
  ghost predicate CallRaises(call: Json, ids: CallIds, decode: string -> Option<Json>) {
    && call.Object?
    && (!NamedText(call.fields, "id")
        || ("function" in call.fields && call.fields["function"].Object? && !CallOk(call, ids, decode)))
  }

  ghost predicate NamedText(o: JsonObject, key: string) {
    key in o && o[key].Str? && !Text.Blank(o[key].s)
  }

  /** The first request that is not well formed raises. */
  ghost predicate FirstRaises(message: JsonObject, ids: Option<CallIds>, decode: string -> Option<Json>) {
    && Given(message, "tool_calls") && message["tool_calls"].List? && ids.Some?
    && exists k :: RaisesFirst(message["tool_calls"].items, ids.value, decode, k)
  }

  ghost predicate RaisesFirst(calls: seq<Json>, ids: CallIds, decode: string -> Option<Json>, k: int) {
    && 0 <= k < |calls| && CallRaises(calls[k], ids, decode)
    && forall j :: 0 <= j < k ==> CallOk(calls[j], ids, decode)
  }

  /** The pair of events carries what the call asks for. */
  ghost predicate PairSays(
    call: Json, ids: CallIds, decode: string -> Option<Json>, started: EventFields, completed: EventFields)
    requires CallOk(call, ids, decode)
  {
    var id, f := Text.Strip(call.fields["id"].s), call.fields["function"].fields;
    && started.eventType == ToolCallStarted && completed.eventType == ToolCallCompleted
    && started.toolCallId == Some(id) && completed.toolCallId == Some(id)
    && started.lbeCallId == Some(Text.Strip(ids(id).value)) && completed.lbeCallId == started.lbeCallId
    && started.toolName == None && started.toolArguments == None
    && completed.toolName == Some(Text.Strip(f["name"].s))
    && completed.toolArguments == Some(decode(f["arguments"].s).value.fields)
  }

  // ---------- the events of one kind ----------

  datatype Kind = Start | Message | Tool | Trouble | Count | Finish | OtherKind

  function KindOf(t: ModelEventType): Kind {
    match t
    case TurnStarted => Start
    case MessageCompleted => Message
    case ToolCallStarted | ToolCallCompleted => Tool
    case ModelError => Trouble
    case UsageUpdated => Count
    case TurnRequiresTool | TurnCompleted | TurnIncomplete | TurnRefused => Finish
    case _ => OtherKind
  }

  /** The events of the kind, in order. */
  function Filter(events: seq<EventFields>, kind: Kind): seq<EventFields> {
    if events == [] then []
    else
      var last := events[|events| - 1];
      Filter(events[..|events| - 1], kind) + (if KindOf(last.eventType) == kind then [last] else [])
  }

  ghost predicate Only(events: seq<EventFields>, kind: Kind) {
    forall i :: 0 <= i < |events| ==> KindOf(events[i].eventType) == kind
  }

  lemma {:induction false} FilterAppend(a: seq<EventFields>, b: seq<EventFields>, kind: Kind)
    ensures Filter(a + b, kind) == Filter(a, kind) + Filter(b, kind)
    decreases |b|
  {
    if b == [] {
      assert a + b == a;
    } else {
      assert (a + b)[..|a + b| - 1] == a + b[..|b| - 1];
      FilterAppend(a, b[..|b| - 1], kind);
    }
  }

  lemma {:induction false} FilterOnly(events: seq<EventFields>, kind: Kind, other: Kind)
    requires Only(events, kind)
    ensures Filter(events, other) == if kind == other then events else []
  {
    if events != [] {
      var init, last := events[..|events| - 1], events[|events| - 1];
      FilterOnly(init, kind, other);
      assert init + [last] == events && init + [] == init;
      assert KindOf(last.eventType) == kind;
    }
  }

  lemma FilterJoined(
    a: seq<EventFields>, b: seq<EventFields>, c: seq<EventFields>, d: seq<EventFields>, e: seq<EventFields>, kind: Kind)
    ensures Filter(a + b + c + d + e, kind) ==
            Filter(a, kind) + Filter(b, kind) + Filter(c, kind) + Filter(d, kind) + Filter(e, kind)
  {
    FilterAppend(a + b + c + d, e, kind);
    FilterAppend(a + b + c, d, kind);
    FilterAppend(a + b, c, kind);
    FilterAppend(a, b, kind);
  }

  lemma Alone<T>(s: seq<T>)
    ensures s + [] + [] + [] + [] == s && [] + s + [] + [] + [] == s && [] + [] + s + [] + [] == s
    ensures [] + [] + [] + s + [] == s && [] + [] + [] + [] + s == s
  {}

  /** The kinds of an answer's parts: the start, an optional message, then three parts of one kind each. */
  lemma FilterParts(
    start: seq<EventFields>, text: seq<EventFields>, tools: seq<EventFields>, usage: seq<EventFields>,
    finish: seq<EventFields>, toolKind: Kind, kind: Kind)
    requires Only(start, Start) && Only(text, Message) && Only(tools, toolKind) && Only(usage, Count)
    requires Only(finish, Finish) && toolKind in {Tool, Trouble}
    ensures Filter(start + text + tools + usage + finish, kind) ==
            match kind
            case Start => start
            case Message => text
            case Count => usage
            case Finish => finish
            case OtherKind => []
            case _ => if kind == toolKind then tools else []
  {
    FilterJoined(start, text, tools, usage, finish, kind);
    FilterOnly(start, Start, kind);
    FilterOnly(text, Message, kind);
    FilterOnly(tools, toolKind, kind);
    FilterOnly(usage, Count, kind);
    FilterOnly(finish, Finish, kind);
    match kind
    case Start => Alone(start);
    case Message => Alone(text);
    case Count => Alone(usage);
    case Finish => Alone(finish);
    case OtherKind => Alone<EventFields>([]);
    case _ => Alone(if kind == toolKind then tools else []);
  }

  // ---------- what the events say ----------

  /** Every event names the provider, the model and the response's own identifier. */
  ghost predicate Stamped(body: JsonObject, providerId: string, modelId: string, events: seq<EventFields>) {
    var id := if Given(body, "id") && body["id"].Str? then Some(Text.Strip(body["id"].s)) else None;
    forall e :: e in events ==>
      e.providerId == providerId && e.modelId == modelId && e.providerRequestId == id
  }

  /** One completed message with the content, if there is content, and none otherwise. */
  ghost predicate TextSaid(message: JsonObject, events: seq<EventFields>) {
    var said := Filter(events, Message);
    if HasText(message) then |said| == 1 && said[0].text == Some(message["content"].s) else said == []
  }

  /** The k-th pair is that of the k-th call. */
  ghost predicate ListSays(calls: seq<Json>, ids: CallIds, decode: string -> Option<Json>, events: seq<EventFields>) {
    && |events| == 2 * |calls|
    && forall k :: 0 <= k < |calls| ==>
         CallOk(calls[k], ids, decode) && PairSays(calls[k], ids, decode, events[2 * k], events[2 * k + 1])
  }

  /** One pair per requested call, carrying what it asks for; none unless all calls are well formed. */
  ghost predicate CallsSaid(
    message: JsonObject, ids: Option<CallIds>, decode: string -> Option<Json>, events: seq<EventFields>)
  {
    var said := Filter(events, Tool);
    if CallsOk(message, ids, decode) then
      ListSays(message["tool_calls"].items, ids.value, decode, said)
    else said == []
  }

  ghost predicate CallsOk(message: JsonObject, ids: Option<CallIds>, decode: string -> Option<Json>) {
    && Given(message, "tool_calls") && message["tool_calls"].List? && ids.Some?
    && forall k :: 0 <= k < |message["tool_calls"].items| ==> CallOk(message["tool_calls"].items[k], ids.value, decode)
  }

  /** A count of "usage": a non-negative integer entry. */
  ghost predicate Counts(body: JsonObject, key: string, n: int) {
    && "usage" in body && body["usage"].Object? && key in body["usage"].fields
    && body["usage"].fields[key] == Int(n) && n >= 0
  }

  /** One usage event that maps exactly the counts, if there are any, and none otherwise. */
  ghost predicate UsageSaid(body: JsonObject, events: seq<EventFields>) {
    var said := Filter(events, Count);
    if exists key, n :: Counts(body, key, n) then
      && |said| == 1 && said[0].usage.Some?
      && forall key, n :: (key in said[0].usage.value && said[0].usage.value[key] == n) <==> Counts(body, key, n)
    else said == []
  }

  /** The one error of a message whose calls cannot be used, with its code. */
  ghost predicate ErrorSaid(
    message: JsonObject, ids: Option<CallIds>, decode: string -> Option<Json>, events: seq<EventFields>)
  {
    var said := Filter(events, Trouble);
    if !Given(message, "tool_calls") || CallsOk(message, ids, decode) then said == []
    else
      && |said| == 1
      && said[0].errorCode == Some(
           if message["tool_calls"].List? && ids.None? then "LBE_CALL_ID_REQUIRED" else "PROVIDER_RESPONSE_ERROR")
  }

  /** The last event: the requested tools, or else the trimmed finish reason, decide; after an error
      there is none. */
  ghost predicate FinishSaid(
    body: JsonObject, message: JsonObject, ids: Option<CallIds>, decode: string -> Option<Json>,
    events: seq<EventFields>)
    requires OnlyMessage(body, message)
  {
    var said := Filter(events, Finish);
    if Given(message, "tool_calls") && !CallsOk(message, ids, decode) then said == []
    else
      && |said| == 1 && said[0] == events[|events| - 1]
      && if Given(message, "tool_calls") && message["tool_calls"].items != [] then said[0].eventType == TurnRequiresTool
         else FinishesAs(body["choices"].items[0].fields, said[0].eventType)
  }

  ghost predicate FinishesAs(choice: JsonObject, t: ModelEventType) {
    if Given(choice, "finish_reason") && choice["finish_reason"].Str? then
      var reason := Text.Strip(choice["finish_reason"].s);
      if reason == "tool_calls" then t == TurnRequiresTool
      else if reason == "length" then t == TurnIncomplete
      else if reason == "content_filter" || reason == "refusal" then t == TurnRefused
      else t == TurnCompleted
    else t == TurnCompleted
  }

  /** The order in which an answer holds the kinds. */
  function Place(kind: Kind): nat {
    match kind
    case Start => 0
    case Message => 1
    case Tool | Trouble => 2
    case Count => 3
    case Finish => 4
    case OtherKind => 5
  }

  /** One start, then text, tools or an error, usage and the finish. */
  ghost predicate InOrder(events: seq<EventFields>) {
    && events != [] && events[0].eventType == TurnStarted
    && (forall i :: 0 < i < |events| ==> 1 <= Place(KindOf(events[i].eventType)) <= 4)
    && forall i, j :: 0 <= i < j < |events| ==>
         Place(KindOf(events[i].eventType)) <= Place(KindOf(events[j].eventType))
  }

  /** All that is said of a response with one message. */
  ghost predicate MessageSaid(
    body: JsonObject, message: JsonObject, ids: Option<CallIds>, decode: string -> Option<Json>,
    events: seq<EventFields>)
    requires OnlyMessage(body, message)
  {
    && InOrder(events) && TextSaid(message, events) && CallsSaid(message, ids, decode, events)
    && UsageSaid(body, events) && ErrorSaid(message, ids, decode, events)
    && FinishSaid(body, message, ids, decode, events)
  }

  ghost predicate Says(
    body: JsonObject, providerId: string, modelId: string, ids: Option<CallIds>, decode: string -> Option<Json>,
    events: seq<EventFields>)
  {
    && Stamped(body, providerId, modelId, events)
    && (forall message :: OnlyMessage(body, message) ==> MessageSaid(body, message, ids, decode, events))
    && ((forall message :: !OnlyMessage(body, message)) ==>
          && |events| == 2 && events[0].eventType == TurnStarted && events[1].eventType == ModelError
          && events[1].errorCode == Some("PROVIDER_RESPONSE_ERROR"))
  }

  // ---------- the parts of an answer ----------

  lemma MessageIff(body: JsonObject, message: JsonObject)
    ensures Get(SingleChoice(body), "message") == Object(message) <==> OnlyMessage(body, message)
    ensures OnlyMessage(body, message) ==> SingleChoice(body) == body["choices"].items[0].fields
  {}

  lemma ReadsAs(call: Json, plain: EventFields, ids: CallIds, decode: string -> Option<Json>)
    requires plain.toolName == None && plain.toolArguments == None
    ensures var r := ReadToolCall(call, plain, ids, decode);
            && (r.Pair? <==> CallOk(call, ids, decode)) && (r.RaisingCall? <==> CallRaises(call, ids, decode))
            && (r.Pair? ==> PairSays(call, ids, decode, r.started, r.completed))
  {}

  /** The tool part: the pairs of all calls, one error, or nothing. */
  lemma CallsRead(
    message: JsonObject, plain: EventFields, ids: Option<CallIds>, decode: string -> Option<Json>)
    requires plain.toolName == None && plain.toolArguments == None
    requires ToolPart(Get(message, "tool_calls"), plain, ids, decode).Some?
    ensures var tools := ToolPart(Get(message, "tool_calls"), plain, ids, decode).value;
            if CallsOk(message, ids, decode) then
              Only(tools, Tool) && ListSays(message["tool_calls"].items, ids.value, decode, tools)
            else if Given(message, "tool_calls") then
              tools == [if message["tool_calls"].List? && ids.None? then MissingIds(plain) else ResponseError(plain)]
            else tools == []
  {
    if Given(message, "tool_calls") && message["tool_calls"].List? && ids.Some? {
      ListRead(message["tool_calls"].items, plain, ids.value, decode);
    }
  }

  lemma ListRead(calls: seq<Json>, plain: EventFields, ids: CallIds, decode: string -> Option<Json>)
    requires plain.toolName == None && plain.toolArguments == None
    ensures var reading := Combined(Readings(calls, plain, ids, decode));
            && (reading.AllPairs? <==> forall k :: 0 <= k < |calls| ==> CallOk(calls[k], ids, decode))
            && (reading.AllPairs? ==> Only(reading.events, Tool) && ListSays(calls, ids, decode, reading.events))
  {
    var readings := Readings(calls, plain, ids, decode);
    forall k | 0 <= k < |calls|
      ensures readings[k].Pair? <==> CallOk(calls[k], ids, decode)
      ensures readings[k].Pair? ==> ReadWell(calls[k], ids, decode, readings[k])
    {
      ReadsAs(calls[k], plain, ids, decode);
    }
    RaisesIff(readings);
    if Combined(readings).AllPairs? {
      PairsSay(calls, ids, decode, readings);
    }
  }

  ghost predicate ReadWell(call: Json, ids: CallIds, decode: string -> Option<Json>, r: CallReading) {
    r.Pair? && CallOk(call, ids, decode) && PairSays(call, ids, decode, r.started, r.completed)
  }

  lemma {:induction false} PairsSay(
    calls: seq<Json>, ids: CallIds, decode: string -> Option<Json>, readings: seq<CallReading>)
    requires |readings| == |calls|
    requires forall k :: 0 <= k < |calls| ==> ReadWell(calls[k], ids, decode, readings[k])
    ensures Combined(readings).AllPairs? && Only(Combined(readings).events, Tool)
    ensures ListSays(calls, ids, decode, Combined(readings).events)
  {
    if readings != [] {
      var n := |calls| - 1;
      assert ReadWell(calls[n], ids, decode, readings[n]);
      PairsSay(calls[..n], ids, decode, readings[..n]);
      ListGrows(calls[..n], calls[n], ids, decode, Combined(readings[..n]).events, readings[n].started,
                readings[n].completed);
      assert calls == calls[..n] + [calls[n]];
    }
  }

  lemma ListGrows(
    calls: seq<Json>, call: Json, ids: CallIds, decode: string -> Option<Json>, events: seq<EventFields>,
    started: EventFields, completed: EventFields)
    requires Only(events, Tool) && ListSays(calls, ids, decode, events)
    requires CallOk(call, ids, decode) && PairSays(call, ids, decode, started, completed)
    ensures Only(events + [started, completed], Tool)
    ensures ListSays(calls + [call], ids, decode, events + [started, completed])
  {
    var more := events + [started, completed];
    forall k | 0 <= k < |calls| + 1
      ensures CallOk((calls + [call])[k], ids, decode)
      ensures PairSays((calls + [call])[k], ids, decode, more[2 * k], more[2 * k + 1])
    {
      if k < |calls| {
        assert more[2 * k] == events[2 * k] && more[2 * k + 1] == events[2 * k + 1];
      }
    }
  }

  lemma UsageReads(body: JsonObject)
    ensures var usage := Usage(Get(body, "usage"));
            && (usage.Some? <==> exists key, n :: Counts(body, key, n))
            && (usage.Some? ==>
                  forall key, n :: (key in usage.value && usage.value[key] == n) <==> Counts(body, key, n))
  {
    if key, n :| Counts(body, key, n) {
      var u := body["usage"].fields;
      assert key in (map k | k in u && u[k].Int? && u[k].i >= 0 :: u[k].i);
    }
    var usage := Usage(Get(body, "usage"));
    if usage.Some? {
      var key :| key in usage.value;
      assert Counts(body, key, usage.value[key]);
    }
  }

  // ---------- the whole answer ----------

  /** The completed message, if any. */
  ghost function TextPart(plain: EventFields, message: JsonObject): (events: seq<EventFields>)
    ensures [plain] + events == MessagePart(plain, message) && Only(events, Message)
    ensures if HasText(message) then |events| == 1 && events[0].text == Some(message["content"].s) else events == []
  {
    MessagePart(plain, message)[1..]
  }

  ghost function ToolKind(message: JsonObject, ids: Option<CallIds>, decode: string -> Option<Json>): Kind {
    if Given(message, "tool_calls") && !CallsOk(message, ids, decode) then Trouble else Tool
  }

  predicate SameStamp(e: EventFields, plain: EventFields) {
    e.providerId == plain.providerId && e.modelId == plain.modelId && e.providerRequestId == plain.providerRequestId
  }

  lemma {:induction false} CombinedStamps(readings: seq<CallReading>, plain: EventFields)
    requires forall k :: 0 <= k < |readings| && readings[k].Pair? ==>
               SameStamp(readings[k].started, plain) && SameStamp(readings[k].completed, plain)
    ensures Combined(readings).AllPairs? ==> forall e :: e in Combined(readings).events ==> SameStamp(e, plain)
  {
    if readings != [] {
      CombinedStamps(readings[..|readings| - 1], plain);
    }
  }

  lemma PartStamps(raw: Json, plain: EventFields, ids: Option<CallIds>, decode: string -> Option<Json>)
    requires ToolPart(raw, plain, ids, decode).Some?
    ensures forall e :: e in ToolPart(raw, plain, ids, decode).value ==> SameStamp(e, plain)
  {
    if raw.List? && ids.Some? {
      CombinedStamps(Readings(raw.items, plain, ids.value, decode), plain);
    }
  }

  lemma AnswerStamps(
    body: JsonObject, plain: EventFields, message: JsonObject, ids: Option<CallIds>, decode: string -> Option<Json>)
    requires AnswerMessage(body, plain, message, ids, decode).Some?
    ensures forall e :: e in AnswerMessage(body, plain, message, ids, decode).value ==> SameStamp(e, plain)
  {
    var tools := ToolPart(Get(message, "tool_calls"), plain, ids, decode).value;
    PartStamps(Get(message, "tool_calls"), plain, ids, decode);
    var reason := OptionalText(Get(SingleChoice(body), "finish_reason")).value;
    var a, c := MessagePart(plain, message), UsagePart(plain, Usage(Get(body, "usage")));
    var d := FinishPart(plain, tools, reason);
    forall e | e in a + tools + (c + d) ensures SameStamp(e, plain) {
      assert e in a || e in tools || e in c || e in d;
    }
  }

  lemma PartsInOrder(
    start: EventFields, text: seq<EventFields>, tools: seq<EventFields>, usage: seq<EventFields>,
    finish: seq<EventFields>, toolKind: Kind)
    requires start.eventType == TurnStarted && Only(text, Message) && Only(tools, toolKind) && Only(usage, Count)
    requires Only(finish, Finish) && toolKind in {Tool, Trouble}
    ensures InOrder([start] + text + tools + usage + finish)
  {
    var events := [start] + text + tools + usage + finish;
    var one, two, three := 1 + |text|, 1 + |text| + |tools|, 1 + |text| + |tools| + |usage|;
    forall i | 0 < i < |events|
      ensures Place(KindOf(events[i].eventType)) ==
              if i < one then 1 else if i < two then 2 else if i < three then 3 else 4
    {
      if i < one {
        assert events[i] == text[i - 1];
      } else if i < two {
        assert events[i] == tools[i - one];
      } else if i < three {
        assert events[i] == usage[i - two];
      } else {
        assert events[i] == finish[i - three];
      }
    }
  }

  lemma ToolsAreOneKind(
    message: JsonObject, plain: EventFields, ids: Option<CallIds>, decode: string -> Option<Json>)
    requires plain.toolName == None && plain.toolArguments == None
    requires ToolPart(Get(message, "tool_calls"), plain, ids, decode).Some?
    ensures var tools := ToolPart(Get(message, "tool_calls"), plain, ids, decode).value;
            && Only(tools, ToolKind(message, ids, decode))
            && (HasError(tools) <==> ToolKind(message, ids, decode) == Trouble)
  {
    CallsRead(message, plain, ids, decode);
    var tools := ToolPart(Get(message, "tool_calls"), plain, ids, decode).value;
    if ToolKind(message, ids, decode) == Trouble {
      assert tools[0].eventType == ModelError;
    } else {
      assert Only(tools, Tool);
    }
  }

  lemma CallsSay(
    message: JsonObject, plain: EventFields, ids: Option<CallIds>, decode: string -> Option<Json>,
    tools: seq<EventFields>, events: seq<EventFields>)
    requires plain.toolName == None && plain.toolArguments == None
    requires ToolPart(Get(message, "tool_calls"), plain, ids, decode) == Some(tools)
    requires Filter(events, Tool) == if ToolKind(message, ids, decode) == Tool then tools else []
    requires Filter(events, Trouble) == if ToolKind(message, ids, decode) == Trouble then tools else []
    ensures CallsSaid(message, ids, decode, events) && ErrorSaid(message, ids, decode, events)
  {
    CallsRead(message, plain, ids, decode);
  }

  lemma UsageSays(body: JsonObject, plain: EventFields, events: seq<EventFields>)
    requires Filter(events, Count) == UsagePart(plain, Usage(Get(body, "usage")))
    ensures UsageSaid(body, events)
  {
    UsageReads(body);
  }

  lemma FinishSays(
    body: JsonObject, message: JsonObject, plain: EventFields, ids: Option<CallIds>, decode: string -> Option<Json>,
    tools: seq<EventFields>, reason: Option<string>, events: seq<EventFields>)
    requires plain.toolName == None && plain.toolArguments == None
    requires OnlyMessage(body, message) && OptionalText(Get(SingleChoice(body), "finish_reason")) == Success(reason)
    requires ToolPart(Get(message, "tool_calls"), plain, ids, decode) == Some(tools)
    requires Filter(events, Finish) == FinishPart(plain, tools, reason)
    requires FinishPart(plain, tools, reason) != [] ==>
               events != [] && events[|events| - 1] == FinishPart(plain, tools, reason)[0]
    ensures FinishSaid(body, message, ids, decode, events)
  {
    CallsRead(message, plain, ids, decode);
    ToolsAreOneKind(message, plain, ids, decode);
    MessageIff(body, message);
    if ToolKind(message, ids, decode) == Tool {
      assert tools != [] <==> Given(message, "tool_calls") && message["tool_calls"].items != [];
      FinishKindReads(body["choices"].items[0].fields, reason);
    }
  }

  lemma FinishKindReads(choice: JsonObject, reason: Option<string>)
    requires OptionalText(Get(choice, "finish_reason")) == Success(reason)
    ensures FinishesAs(choice, FinishKind(reason))
  {}

  /** The filters of an answer's five parts. */
  lemma AnswerFilters(
    start: EventFields, text: seq<EventFields>, tools: seq<EventFields>, usage: seq<EventFields>,
    finish: seq<EventFields>, toolKind: Kind, events: seq<EventFields>)
    requires start.eventType == TurnStarted && Only(text, Message) && Only(tools, toolKind) && Only(usage, Count)
    requires Only(finish, Finish) && toolKind in {Tool, Trouble}
    requires events == [start] + text + tools + usage + finish
    ensures && InOrder(events) && Filter(events, Message) == text && Filter(events, Count) == usage
            && Filter(events, Tool) == (if toolKind == Tool then tools else [])
            && Filter(events, Trouble) == (if toolKind == Trouble then tools else [])
            && Filter(events, Finish) == finish && (finish != [] ==> events[|events| - 1] == finish[|finish| - 1])
  {
    PartsInOrder(start, text, tools, usage, finish, toolKind);
    FilterParts([start], text, tools, usage, finish, toolKind, Message);
    FilterParts([start], text, tools, usage, finish, toolKind, Tool);
    FilterParts([start], text, tools, usage, finish, toolKind, Trouble);
    FilterParts([start], text, tools, usage, finish, toolKind, Count);
    FilterParts([start], text, tools, usage, finish, toolKind, Finish);
  }

  /** An answer in its five parts. */
  lemma AnswerParts(
    body: JsonObject, plain: EventFields, message: JsonObject, ids: Option<CallIds>, decode: string -> Option<Json>)
    returns (tools: seq<EventFields>, usage: seq<EventFields>, reason: Option<string>)
    requires OnlyMessage(body, message) && AnswerMessage(body, plain, message, ids, decode).Some?
    ensures ToolPart(Get(message, "tool_calls"), plain, ids, decode) == Some(tools)
    ensures usage == UsagePart(plain, Usage(Get(body, "usage"))) && Only(usage, Count)
    ensures OptionalText(Get(SingleChoice(body), "finish_reason")) == Success(reason)
    ensures Only(FinishPart(plain, tools, reason), Finish) && |FinishPart(plain, tools, reason)| <= 1
    ensures AnswerMessage(body, plain, message, ids, decode).value ==
            [plain] + TextPart(plain, message) + tools + usage + FinishPart(plain, tools, reason)
  {
    tools := ToolPart(Get(message, "tool_calls"), plain, ids, decode).value;
    usage := UsagePart(plain, Usage(Get(body, "usage")));
    reason := OptionalText(Get(SingleChoice(body), "finish_reason")).value;
    var opening, finish := MessagePart(plain, message), FinishPart(plain, tools, reason);
    assert opening + tools + (usage + finish) == opening + tools + usage + finish;
  }

  lemma PartsSay(
    body: JsonObject, plain: EventFields, message: JsonObject, ids: Option<CallIds>, decode: string -> Option<Json>,
    reason: Option<string>, tools: seq<EventFields>, events: seq<EventFields>)
    requires plain == Plain(TurnStarted, plain.providerId, plain.modelId, plain.providerRequestId)
    requires OnlyMessage(body, message) && OptionalText(Get(SingleChoice(body), "finish_reason")) == Success(reason)
    requires ToolPart(Get(message, "tool_calls"), plain, ids, decode) == Some(tools)
    requires Filter(events, Tool) == if ToolKind(message, ids, decode) == Tool then tools else []
    requires Filter(events, Trouble) == if ToolKind(message, ids, decode) == Trouble then tools else []
    requires Filter(events, Count) == UsagePart(plain, Usage(Get(body, "usage")))
    requires Filter(events, Finish) == FinishPart(plain, tools, reason)
    requires FinishPart(plain, tools, reason) != [] ==>
               events != [] && events[|events| - 1] == FinishPart(plain, tools, reason)[0]
    ensures CallsSaid(message, ids, decode, events) && ErrorSaid(message, ids, decode, events)
    ensures UsageSaid(body, events) && FinishSaid(body, message, ids, decode, events)
  {
    CallsSay(message, plain, ids, decode, tools, events);
    UsageSays(body, plain, events);
    FinishSays(body, message, plain, ids, decode, tools, reason, events);
  }

  lemma MessageSays(
    body: JsonObject, plain: EventFields, message: JsonObject, ids: Option<CallIds>, decode: string -> Option<Json>)
    requires plain == Plain(TurnStarted, plain.providerId, plain.modelId, plain.providerRequestId)
    requires OnlyMessage(body, message) && AnswerMessage(body, plain, message, ids, decode).Some?
    ensures MessageSaid(body, message, ids, decode, AnswerMessage(body, plain, message, ids, decode).value)
  {
    var events := AnswerMessage(body, plain, message, ids, decode).value;
    var tools, usage, reason := AnswerParts(body, plain, message, ids, decode);
    ToolsAreOneKind(message, plain, ids, decode);
    AnswerFilters(plain, TextPart(plain, message), tools, usage, FinishPart(plain, tools, reason),
                  ToolKind(message, ids, decode), events);
    assert InOrder(events) && TextSaid(message, events);
    PartsSay(body, plain, message, ids, decode, reason, tools, events);
  }

  lemma NoMessageSays(
    body: JsonObject, providerId: string, modelId: string, ids: Option<CallIds>, decode: string -> Option<Json>)
    requires Answer(body, providerId, modelId, ids, decode).Some? && !Get(SingleChoice(body), "message").Object?
    ensures Says(body, providerId, modelId, ids, decode, Answer(body, providerId, modelId, ids, decode).value)
  {
    forall m ensures !OnlyMessage(body, m) {
      MessageIff(body, m);
    }
  }

  lemma AnswerSays(
    body: JsonObject, providerId: string, modelId: string, ids: Option<CallIds>, decode: string -> Option<Json>)
    requires Answer(body, providerId, modelId, ids, decode).Some?
    ensures Says(body, providerId, modelId, ids, decode, Answer(body, providerId, modelId, ids, decode).value)
  {
    var message := Get(SingleChoice(body), "message");
    if message.Object? {
      var plain := Plain(TurnStarted, providerId, modelId, OptionalText(Get(body, "id")).value);
      MessageIff(body, message.fields);
      assert Answer(body, providerId, modelId, ids, decode) == AnswerMessage(body, plain, message.fields, ids, decode);
      var events := AnswerMessage(body, plain, message.fields, ids, decode).value;
      assert Stamped(body, providerId, modelId, events) by {
        AnswerStamps(body, plain, message.fields, ids, decode);
      }
      assert forall m :: OnlyMessage(body, m) ==> MessageSaid(body, m, ids, decode, events) by {
        MessageSays(body, plain, message.fields, ids, decode);
      }
    } else {
      NoMessageSays(body, providerId, modelId, ids, decode);
    }
  }

  /** Everything an answer says is what the response says, and nothing is left out or added. */
  lemma CompletionSays(
    model: string, providerId: string, body: JsonObject, ids: Option<CallIds>, decode: string -> Option<Json>)
    requires Completion(model, providerId, Response(body), ids, decode).Some?
    ensures var events := Completion(model, providerId, Response(body), ids, decode).value;
            Says(body, providerId, Text.Strip(model), ids, decode, events)
  {
    AnswerSays(body, providerId, Text.Strip(model), ids, decode);
  }

  lemma ListRaises(calls: seq<Json>, plain: EventFields, ids: CallIds, decode: string -> Option<Json>)
    requires plain.toolName == None && plain.toolArguments == None
    ensures (exists k: nat :: RaisesAt(Readings(calls, plain, ids, decode), k)) <==>
              exists k :: RaisesFirst(calls, ids, decode, k)
  {
    var readings := Readings(calls, plain, ids, decode);
    forall k | 0 <= k < |calls|
      ensures readings[k].Pair? <==> CallOk(calls[k], ids, decode)
      ensures readings[k].RaisingCall? <==> CallRaises(calls[k], ids, decode)
    {
      ReadsAs(calls[k], plain, ids, decode);
    }
    if k: nat :| RaisesAt(readings, k) {
      assert RaisesFirst(calls, ids, decode, k);
    }
    if k :| RaisesFirst(calls, ids, decode, k) {
      assert RaisesAt(readings, k);
    }
  }

  /** What the one message of a response must be like to be answered. */
  ghost predicate MessageReadable(
    body: JsonObject, message: JsonObject, ids: Option<CallIds>, decode: string -> Option<Json>)
    requires OnlyMessage(body, message)
  {
    var choice := body["choices"].items[0].fields;
    && (Given(choice, "finish_reason") ==> NamedText(choice, "finish_reason"))
    && (forall key, n :: Counts(body, key, n) ==> !Text.Blank(key))
    && !FirstRaises(message, ids, decode)
  }

  lemma CountsAreNamed(body: JsonObject)
    ensures CountsNamed(Usage(Get(body, "usage"))) <==> forall key, n :: Counts(body, key, n) ==> !Text.Blank(key)
  {
    UsageReads(body);
    var usage := Usage(Get(body, "usage"));
    if key, n :| Counts(body, key, n) && Text.Blank(key) {
      assert key in usage.value;
    }
    if usage.Some? && exists key :: key in usage.value && Text.Blank(key) {
      var key :| key in usage.value && Text.Blank(key);
      assert Counts(body, key, usage.value[key]);
    }
  }

  lemma ReadableIff(
    body: JsonObject, providerId: string, modelId: string, ids: Option<CallIds>, decode: string -> Option<Json>)
    ensures Readable(body, providerId, modelId, ids, decode) <==>
              && (Given(body, "id") ==> NamedText(body, "id"))
              && forall message :: OnlyMessage(body, message) ==> MessageReadable(body, message, ids, decode)
  {
    var message := Get(SingleChoice(body), "message");
    forall m ensures OnlyMessage(body, m) <==> message == Object(m) {
      MessageIff(body, m);
    }
    CountsAreNamed(body);
    if message.Object? && AbsentOrNamed(Get(body, "id")) {
      var plain := Plain(TurnStarted, providerId, modelId, OptionalText(Get(body, "id")).value);
      var raw := Get(message.fields, "tool_calls");
      MessageIff(body, message.fields);
      if raw.List? && ids.Some? {
        ListRaises(raw.items, plain, ids.value, decode);
      }
      assert ToolCallsRaise(raw, plain, ids, decode) <==> FirstRaises(message.fields, ids, decode);
    }
  }

  /** A response is answered exactly when provider and model are named, its own identifier is absent
      or named, and its one message, if it has one, can be read. */
  lemma RespondsIff(
    model: string, providerId: string, body: JsonObject, ids: Option<CallIds>, decode: string -> Option<Json>)
    ensures Completion(model, providerId, Response(body), ids, decode).Some? <==>
              && !Text.Blank(providerId) && !Text.Blank(model) && (Given(body, "id") ==> NamedText(body, "id"))
              && forall message :: OnlyMessage(body, message) ==> MessageReadable(body, message, ids, decode)
  {
    CompletesIff(model, providerId, Response(body), ids, decode);
    ReadableIff(body, providerId, Text.Strip(model), ids, decode);
  }

  /** A provider error is one error event with the transport's code. */
  lemma ProviderErrorSays(
    model: string, providerId: string, code: string, ids: Option<CallIds>, decode: string -> Option<Json>)
    requires Completion(model, providerId, ProviderError(code), ids, decode).Some?
    ensures var events := Completion(model, providerId, ProviderError(code), ids, decode).value;
            && |events| == 1 && events[0].eventType == ModelError && events[0].errorCode == Some(code)
            && events[0].providerId == providerId && events[0].modelId == Text.Strip(model)
  {}
}
