/** Stored events as the index and the builder read them: row id, row type, and the decoded body. */
module Events {
  import opened Options

  /** extensions.source: "otel" marks the OTel copy of a dual-emitted signal, everything else is harness. */
  datatype Source = Harness | OTel

  datatype EventType =
    | UserMessage | Result | Thinking | ToolCall | ToolResult | Error | SessionFile | SessionAction
    | System | Stream | Block | UsageTotal | APISpendTotal | SessionCost | TurnComplete | OtherType(name: string)

  /** A tool string, as the UTF-8 bytes the size limits count. */
  type Byte = b: int | 0 <= b < 256
  type Bytes = seq<Byte>

  datatype Json =
    | JNull
    | JBool(b: bool)
    | JNumber(n: real)
    | JString(s: Bytes)
    | JArray(items: seq<Json>)
    | JObject(fields: map<Bytes, Json>)

  /** A raw JSON message: its value, and how many bytes it was written in. */
  datatype RawMessage = RawMessage(value: Json, size: nat)

  datatype Usage = Usage(contextTokens: int, contextLimit: int)
  datatype ResultPayload = ResultPayload(text: string, usage: Usage)
  datatype Delta = Delta(isThinking: bool, text: string, thinking: string)
  datatype BlockPayload = BlockPayload(text: Option<string>, thinking: Option<string>, redacted: bool)
  datatype SystemPayload = SystemPayload(subtype: string, message: string)
  datatype Spend = Spend(totalUSD: real, byModel: seq<(string, real)>, byQuerySource: seq<(string, real)>, usage: Usage)

  /** msg.Event. `display` stands for the fields that are copied to the entry and read by no rule. */
  datatype Event = Event(
    typ: EventType,
    turnID: string,
    messageID: string,
    source: Source,
    recovered: bool,
    ts: string,
    display: string,
    result: Option<ResultPayload>,
    thinking: Option<string>,
    error: Option<string>,
    system: Option<SystemPayload>,
    delta: Option<Delta>,
    block: Option<BlockPayload>,
    sharedByAgent: bool,
    actionOffered: bool,
    toolCall: Option<RawMessage>,
    toolResult: Option<Bytes>,
    usageTotal: Option<Usage>,
    apiSpendTotal: Option<Spend>,
    sessionCost: Option<real>)

  /** One row of the events table. `rawTurnID` is the body's turn_id ("" when absent or not a string);
      `body` is None for a body msg.Event cannot be decoded from. */
  datatype EventRow = EventRow(id: nat, typ: EventType, rawTurnID: string, body: Option<Event>)

  /** A session's events in id order; ids are rowids, so they are positive and rise. */
  ghost predicate Ascending(log: seq<EventRow>) {
    && (forall i :: 0 <= i < |log| ==> 0 < log[i].id)
    && (forall i, j :: 0 <= i < j < |log| ==> log[i].id < log[j].id)
  }

  function NewestID(log: seq<EventRow>): nat {
    if log == [] then 0 else log[|log| - 1].id
  }
}
