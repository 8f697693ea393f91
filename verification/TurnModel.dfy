/** What the builder makes of some rows: one annotated entry per event, the turns, the aggregates. This is
    the closed form; the loops that compute it are in Builder. */
module TurnModel {
  import opened Options
  import opened Events
  import opened TurnRule
  import opened IndexRules
  import opened TurnIndex
  import opened Dedup

  datatype Role = UserRole | AssistantRole | ToolRole | SystemRole

  datatype Kind =
    | TextKind | ResultKind | ThinkingKind | ToolCallKind | ToolResultKind
    | ErrorKind | FileKind | ActionKind | SystemKind | MetaKind

  /** Entry. Its wire id "e_<eventID>" and group id "g_e_<harness event id>" are kept as the numbers. */
  datatype Entry = Entry(
    eventID: nat,
    turnID: string,
    role: Role,
    kind: Kind,
    source: Source,
    ts: string,
    messageID: string,
    text: string,
    recovered: bool,
    display: string,
    toolInput: Option<Json>,
    toolResult: Option<Bytes>,
    raw: Option<EventRow>,
    toolInputBytes: nat,
    toolInputTruncated: bool,
    toolResultBytes: nat,
    toolResultTruncated: bool,
    duplicate: bool,
    primary: bool,
    groupID: Option<nat>)

  datatype Turn = Turn(id: string, role: Role, ts: string, entryIDs: seq<nat>)

  // ---------------------------------------------------------------- one event to one entry

  datatype Class = Class(role: Role, kind: Kind, conversation: bool)

  predicate IsVisibleSystemSubtype(subtype: string) {
    subtype == "compact_boundary" || subtype == "subagent_completed"
  }

  predicate IsReasoningPayload(ev: Event) {
    if ev.delta.Some? then ev.delta.value.isThinking
    else ev.block.Some? && (ev.block.value.thinking.Some? || ev.block.value.redacted)
  }

  function Classify(ev: Event): Class {
    match ev.typ
    case UserMessage => Class(UserRole, TextKind, true)
    case Result => Class(AssistantRole, ResultKind, true)
    case Thinking => Class(AssistantRole, ThinkingKind, true)
    case ToolCall => Class(AssistantRole, ToolCallKind, true)
    case ToolResult => Class(ToolRole, ToolResultKind, true)
    case Error => Class(AssistantRole, ErrorKind, true)
    case SessionFile => Class(if ev.sharedByAgent then AssistantRole else UserRole, FileKind, true)
    case SessionAction => Class(if ev.actionOffered then AssistantRole else SystemRole, ActionKind, true)
    case System => Class(SystemRole, SystemKind, ev.system.Some? && IsVisibleSystemSubtype(ev.system.value.subtype))
    case Stream => Class(AssistantRole, if IsReasoningPayload(ev) then ThinkingKind else TextKind, false)
    case Block => Class(AssistantRole, if IsReasoningPayload(ev) then ThinkingKind else TextKind, false)
    case _ => Class(AssistantRole, MetaKind, false)
  }

  function OrEmpty(s: Option<string>): string {
    if s.Some? then s.value else ""
  }

  function MessageText(ev: Event): string {
    match ev.typ
    case UserMessage => EntryText(ev)
    case Result => EntryText(ev)
    case Thinking => OrEmpty(ev.thinking)
    case Error => OrEmpty(ev.error)
    case System => if ev.system.Some? then ev.system.value.message else ""
    case Stream =>
      if ev.delta.None? then "" else if ev.delta.value.text != "" then ev.delta.value.text else ev.delta.value.thinking
    case Block =>
      if ev.block.None? then "" else if ev.block.value.text.Some? then ev.block.value.text.value
      else OrEmpty(ev.block.value.thinking)
    case _ => ""
  }

  /** toolPayloads: an event's tool input and output as an entry carries them. */
  function ToolInputOf(ev: Event): Option<Json> {
    if ev.typ == ToolCall && ev.toolCall.Some? then Some(ev.toolCall.value.value) else None
  }

  function ToolResultOf(ev: Event): Option<Bytes> {
    if ev.typ == ToolResult then ev.toolResult else None
  }

  /** The entry of an event with its default annotation: conversation shown, everything else hidden. */
  function PlainEntry(b: TurnEvent): Entry {
    match b.row.body
    case None =>
      Entry(b.row.id, b.turnID, SystemRole, MetaKind, Harness, "", "", "", false, "", None, None, Some(b.row),
            0, false, 0, false, true, false, None)
    case Some(ev) =>
      var c := Classify(ev);
      Entry(b.row.id, b.turnID, c.role, c.kind, ev.source, ev.ts, ev.messageID, MessageText(ev), ev.recovered, ev.display,
            ToolInputOf(ev), ToolResultOf(ev), Some(b.row), 0, false, 0, false, !c.conversation, c.conversation, None)
  }

  /** The annotation of a dual-emitted copy that has a twin: the harness copy names the group and shows,
      the OTel copy is the hidden duplicate. An event the builder cannot decode never pairs. */
  function AnnotatePair(b: TurnEvent, pairs: Pairs, e: Entry): Entry {
    if b.row.id !in pairs || b.row.body.None? then e
    else e.(groupID := Some(if e.source == OTel then pairs[b.row.id] else b.row.id),
            primary := e.source != OTel, duplicate := e.source == OTel)
  }

  function EntryOf(b: TurnEvent, pairs: Pairs): Entry {
    AnnotatePair(b, pairs, PlainEntry(b))
  }

  // ---------------------------------------------------------------- the builder's own grouping

  /** The turn id the builder starts from: the index's, else the event's own. */
  function GivenTurnID(b: TurnEvent): string {
    if b.turnID != "" then b.turnID else if b.row.body.Some? then b.row.body.value.turnID else ""
  }

  function LastSettled(rows: seq<TurnEvent>): string {
    if rows == [] then ""
    else Resolve(LastSettled(rows[..|rows| - 1]), rows[|rows| - 1].row.id, GivenTurnID(rows[|rows| - 1]))
  }

  /** buildTurns' turn of each row: its given id, else the previous row's, else one made from its id. */
  function Settled(rows: seq<TurnEvent>): (settled: seq<TurnEvent>)
    ensures |settled| == |rows|
  {
    if rows == [] then [] else Settled(rows[..|rows| - 1]) + [TurnEvent(LastSettled(rows), rows[|rows| - 1].row)]
  }

  // ---------------------------------------------------------------- promotion

  predicate IsRecoveredOrOTelAssistantText(e: Entry) {
    e.role == AssistantRole && e.kind == TextKind && e.text != "" && (e.recovered || e.source == OTel)
  }

  predicate SupersedesRecovered(e: Entry) {
    && e.text != ""
    && (|| (e.kind == ResultKind && e.role == AssistantRole)
        || (e.kind == TextKind && e.role == AssistantRole && e.source == Harness && !e.recovered))
  }

  predicate SupersedesBlocks(e: Entry) {
    e.text != "" && e.role == AssistantRole && e.kind == ResultKind
  }

  /** A block echo whose payload is a text block, reasoning beside it or not. */
  predicate IsTextBlock(row: EventRow) {
    row.body.Some? && row.body.value.typ == Block && row.body.value.block.Some? && row.body.value.block.value.text.Some?
  }

  /** A text block the unsuperseded pass and the narration pass may promote. */
  predicate IsProse(b: TurnEvent) {
    IsTextBlock(b.row) && PlainEntry(b).text != "" && !IsRecoveredOrOTelAssistantText(PlainEntry(b))
  }

  predicate RecoveredSuperseded(rows: seq<TurnEvent>, turnID: string) {
    exists r :: r in rows && r.turnID == turnID
                && !IsRecoveredOrOTelAssistantText(PlainEntry(r)) && SupersedesRecovered(PlainEntry(r))
  }

  predicate BlocksSuperseded(rows: seq<TurnEvent>, turnID: string) {
    exists r :: r in rows && r.turnID == turnID && !IsProse(r) && SupersedesBlocks(PlainEntry(r))
  }

  predicate Tooled(rows: seq<TurnEvent>, messageID: string) {
    messageID != "" && exists r :: r in rows && PlainEntry(r).kind == ToolCallKind && PlainEntry(r).messageID == messageID
  }

  predicate PromotedAsRecovered(rows: seq<TurnEvent>, b: TurnEvent) {
    IsRecoveredOrOTelAssistantText(PlainEntry(b)) && !RecoveredSuperseded(rows, b.turnID)
  }

  predicate PromotedAsUnsuperseded(rows: seq<TurnEvent>, b: TurnEvent) {
    IsProse(b) && !BlocksSuperseded(rows, b.turnID)
  }

  predicate PromotedAsNarration(rows: seq<TurnEvent>, b: TurnEvent) {
    IsProse(b) && Tooled(rows, PlainEntry(b).messageID)
  }

  predicate Promoted(rows: seq<TurnEvent>, b: TurnEvent) {
    PromotedAsRecovered(rows, b) || PromotedAsUnsuperseded(rows, b) || PromotedAsNarration(rows, b)
  }

  function Promote(e: Entry): Entry {
    e.(primary := true, duplicate := false)
  }

  /** The entry of a row in its final annotation, among the rows of the page. */
  function FinalEntry(rows: seq<TurnEvent>, pairs: Pairs, b: TurnEvent): Entry {
    if Promoted(rows, b) then Promote(EntryOf(b, pairs)) else EntryOf(b, pairs)
  }

  // ---------------------------------------------------------------- aggregates

  datatype AggregateSources = AggregateSources(
    spendEventID: nat, spend: Option<Spend>,
    costEventID: nat, cost: Option<real>,
    contextEventID: nat, contextTokens: int, contextLimit: int)

  const NoSources := AggregateSources(0, None, 0, None, 0, 0, 0)

  datatype Aggregates = Aggregates(
    totalUSD: real, byModel: seq<(string, real)>, byQuerySource: seq<(string, real)>, contextTokens: int, contextLimit: int)

  /** The usage an event's context reading is taken from. */
  function UsageOf(ev: Event): Option<Usage> {
    if ev.usageTotal.Some? then ev.usageTotal
    else if ev.apiSpendTotal.Some? then Some(ev.apiSpendTotal.value.usage)
    else if ev.typ == Result && ev.result.Some? then Some(ev.result.value.usage)
    else None
  }

  /** contextFromEvent: no reading when neither field is set. */
  function ContextFromEvent(ev: Event): Option<Usage> {
    var u := UsageOf(ev);
    if u.Some? && (u.value.contextTokens != 0 || u.value.contextLimit != 0) then u else None
  }

  /** One event's effect on the last-value-wins sources. */
  function AddSources(s: AggregateSources, row: EventRow): AggregateSources {
    match row.body
    case None => s
    case Some(ev) =>
      var s1 := if ev.typ == APISpendTotal && ev.apiSpendTotal.Some?
                then s.(spendEventID := row.id, spend := ev.apiSpendTotal) else s;
      var s2 := if ev.typ == SessionCost && ev.sessionCost.Some?
                then s1.(costEventID := row.id, cost := ev.sessionCost) else s1;
      match ContextFromEvent(ev)
      case None => s2
      case Some(u) => s2.(contextEventID := row.id, contextTokens := u.contextTokens, contextLimit := u.contextLimit)
  }

  function SourcesOf(rows: seq<TurnEvent>): AggregateSources {
    if rows == [] then NoSources else AddSources(SourcesOf(rows[..|rows| - 1]), rows[|rows| - 1].row)
  }

  function SumCosts(costs: seq<(string, real)>): real {
    if costs == [] then 0.0 else SumCosts(costs[..|costs| - 1]) + costs[|costs| - 1].1
  }

  /** buildAggregates. */
  function BuildAggregates(spend: Option<Spend>, cost: Option<real>, tokens: int, limit: int, haveContext: bool): Option<Aggregates> {
    if spend.None? && cost.None? && !haveContext then None
    else
      var spent := match spend
        case None => 0.0
        case Some(s) => if s.totalUSD == 0.0 && |s.byModel| > 0 then SumCosts(s.byModel) else s.totalUSD;
      Some(Aggregates(
        if cost.Some? then cost.value else spent,
        if spend.Some? then spend.value.byModel else [],
        if spend.Some? then spend.value.byQuerySource else [],
        if haveContext then tokens else 0,
        if haveContext then limit else 0))
  }

  function AggregatesOf(s: AggregateSources): Option<Aggregates> {
    BuildAggregates(s.spend, s.cost, s.contextTokens, s.contextLimit, s.contextEventID > 0)
  }

  // ---------------------------------------------------------------- the model of some rows

  /** TurnModel, less the validator both of its callers replace. */
  datatype Model = Model(
    turns: seq<Turn>, entries: map<nat, Entry>, more: bool,
    aggregates: Option<Aggregates>, sourceGroups: map<nat, seq<Source>>)

  ghost predicate DistinctIDs(rows: seq<TurnEvent>) {
    forall b, c :: b in rows && c in rows && b.row.id == c.row.id ==> b == c
  }

  function EntriesOf(rows: seq<TurnEvent>, pairs: Pairs): map<nat, Entry>
    requires DistinctIDs(rows)
  {
    map b | b in rows :: b.row.id := FinalEntry(rows, pairs, b)
  }

  function IDsOf(rows: seq<TurnEvent>): seq<nat> {
    if rows == [] then [] else IDsOf(rows[..|rows| - 1]) + [rows[|rows| - 1].row.id]
  }

  /** One turn: the role and time of the entry that opens it, and its entries in event order. */
  function TurnOf(events: seq<TurnEvent>): Turn
    requires events != []
  {
    Turn(events[0].turnID, PlainEntry(events[0]).role, PlainEntry(events[0]).ts, IDsOf(events))
  }

  function TurnListOf(rows: seq<TurnEvent>): (turns: seq<Turn>)
    ensures |turns| == |TurnIDs(rows)|
  {
    seq(|TurnIDs(rows)|, i requires 0 <= i < |TurnIDs(rows)| => TurnOf(EventsOfTurn(rows, i + 1)))
  }

  /** buildTurnModelWithAggregateSources on rows whose turns are settled. */
  function ModelOf(rows: seq<TurnEvent>, pairs: Pairs, more: bool): Model
    requires DistinctIDs(rows)
  {
    Model(TurnListOf(rows), EntriesOf(rows, pairs), more, AggregatesOf(SourcesOf(rows)), map[])
  }

  // ---------------------------------------------------------------- the reading projection

  function GroupsOf(entries: map<nat, Entry>): map<nat, seq<Source>> {
    map id | id in entries && entries[id].groupID.Some? :: entries[id].groupID.value := [Harness, OTel]
  }

  function KeptOf(entries: map<nat, Entry>): map<nat, Entry> {
    map id | id in entries && !entries[id].duplicate :: entries[id].(raw := None)
  }

  function PrunedIDs(ids: seq<nat>, kept: map<nat, Entry>): seq<nat> {
    if ids == [] then []
    else if ids[|ids| - 1] in kept then PrunedIDs(ids[..|ids| - 1], kept) + [ids[|ids| - 1]]
    else PrunedIDs(ids[..|ids| - 1], kept)
  }

  function Pruned(turns: seq<Turn>, kept: map<nat, Entry>): (pruned: seq<Turn>)
    ensures |pruned| == |turns|
  {
    seq(|turns|, i requires 0 <= i < |turns| => turns[i].(entryIDs := PrunedIDs(turns[i].entryIDs, kept)))
  }

  /** projectForReading. */
  function Projected(m: Model): Model {
    var kept := KeptOf(m.entries);
    m.(turns := Pruned(m.turns, kept), entries := kept, sourceGroups := GroupsOf(m.entries))
  }
}
