/** What a reader sees of a page, said over the fields of its events. */
module ReaderView {
  import opened Options
  import opened Events
  import opened TurnRule
  import opened IndexRules
  import opened TurnIndex
  import opened Dedup
  import opened TurnModel
  import opened Visibility
  import opened Composition

  // ---------------------------------------------------------------- events by what they carry

  /** Model reasoning: a thinking delta, or, without a delta, a block that thinks, redacted or not. */
  predicate Reasons(ev: Event) {
    || (ev.delta.Some? && ev.delta.value.isThinking)
    || (ev.delta.None? && ev.block.Some? && (ev.block.value.thinking.Some? || ev.block.value.redacted))
  }

  /** The partial text of a stream delta or of a block echo. */
  function PartialText(ev: Event): string {
    if ev.typ == Stream && ev.delta.Some? then
      if ev.delta.value.text == "" then ev.delta.value.thinking else ev.delta.value.text
    else if ev.typ == Block && ev.block.Some? then
      if ev.block.value.text.Some? then ev.block.value.text.value
      else if ev.block.value.thinking.Some? then ev.block.value.thinking.value else ""
    else ""
  }

  /** A partial that is neither reasoning nor empty. */
  predicate PartialProse(ev: Event) {
    (ev.typ == Stream || ev.typ == Block) && !Reasons(ev) && PartialText(ev) != ""
  }

  /** Assistant text the live stream missed: recovered, or seen by OTel only. */
  predicate Recovered(b: TurnEvent) {
    b.row.body.Some? && PartialProse(b.row.body.value) && (b.row.body.value.recovered || b.row.body.value.source == OTel)
  }

  /** A result that says something. */
  predicate Answers(b: TurnEvent) {
    b.row.body.Some? && b.row.body.value.typ == Result && b.row.body.value.result.Some? && b.row.body.value.result.value.text != ""
  }

  /** The harness's own partial text. */
  predicate OwnPartial(b: TurnEvent) {
    b.row.body.Some? && PartialProse(b.row.body.value) && b.row.body.value.source == Harness && !b.row.body.value.recovered
  }

  /** A text block of the harness's own, or any text block beside reasoning. */
  predicate TextBlock(b: TurnEvent) {
    && b.row.body.Some? && b.row.body.value.typ == Block && b.row.body.value.block.Some?
    && b.row.body.value.block.value.text.Some? && b.row.body.value.block.value.text.value != ""
    && (Reasons(b.row.body.value) || (b.row.body.value.source == Harness && !b.row.body.value.recovered))
  }

  predicate CallsTool(b: TurnEvent, messageID: string) {
    b.row.body.Some? && b.row.body.value.typ == ToolCall && b.row.body.value.messageID == messageID
  }

  /** What the collapsed view shows of its own accord: what was said, done, shared or went wrong, and two kinds
      of progress; never partials, usage or bookkeeping. */
  predicate Conversation(ev: Event) {
    || ev.typ in {UserMessage, Result, Thinking, ToolCall, ToolResult, Error, SessionFile, SessionAction}
    || (ev.typ == System && ev.system.Some? && ev.system.value.subtype in {"compact_boundary", "subagent_completed"})
  }

  // ---------------------------------------------------------------- the builder's tests, over the fields

  lemma RecoveredIff(b: TurnEvent)
    ensures IsRecoveredOrOTelAssistantText(PlainEntry(b)) <==> Recovered(b)
  {
  }

  lemma SupersedesRecoveredIff(b: TurnEvent)
    ensures SupersedesRecovered(PlainEntry(b)) <==> Answers(b) || OwnPartial(b)
  {
  }

  lemma SupersedesBlocksIff(b: TurnEvent)
    ensures SupersedesBlocks(PlainEntry(b)) <==> Answers(b)
  {
  }

  lemma ProseIff(b: TurnEvent)
    ensures IsProse(b) <==> TextBlock(b)
  {
    hide IsRecoveredOrOTelAssistantText;
    RecoveredIff(b);
  }

  lemma ToolCallIff(b: TurnEvent, messageID: string)
    ensures PlainEntry(b).kind == ToolCallKind && PlainEntry(b).messageID == messageID <==> CallsTool(b, messageID)
  {
  }

  /** Recovered text is shown if and only if its turn has neither an answer nor partial text of the harness's own. */
  lemma PromotedAsRecoveredIff(rows: seq<TurnEvent>, b: TurnEvent)
    ensures PromotedAsRecovered(rows, b) <==>
            Recovered(b) && forall r :: r in rows && r.turnID == b.turnID ==> !Answers(r) && !OwnPartial(r)
  {
    hide PlainEntry, IsRecoveredOrOTelAssistantText, SupersedesRecovered, Recovered, Answers, OwnPartial;
    forall r ensures IsRecoveredOrOTelAssistantText(PlainEntry(r)) <==> Recovered(r)
             ensures SupersedesRecovered(PlainEntry(r)) <==> Answers(r) || OwnPartial(r)
             ensures Recovered(r) ==> !Answers(r) && !OwnPartial(r)
    {
      RecoveredIff(r);
      SupersedesRecoveredIff(r);
      RecoveredIsNeither(r);
    }
  }

  lemma RecoveredIsNeither(b: TurnEvent)
    ensures Recovered(b) ==> !Answers(b) && !OwnPartial(b)
  {
  }

  /** A text block is shown if its turn has no answer. */
  lemma PromotedAsUnsupersededIff(rows: seq<TurnEvent>, b: TurnEvent)
    ensures PromotedAsUnsuperseded(rows, b) <==>
            TextBlock(b) && forall r :: r in rows && r.turnID == b.turnID ==> !Answers(r)
  {
    hide PlainEntry, IsProse, SupersedesBlocks, TextBlock, Answers;
    forall r ensures IsProse(r) <==> TextBlock(r)
             ensures SupersedesBlocks(PlainEntry(r)) <==> Answers(r)
             ensures TextBlock(r) ==> !Answers(r)
    {
      ProseIff(r);
      SupersedesBlocksIff(r);
      BlockIsNoAnswer(r);
    }
  }

  lemma BlockIsNoAnswer(b: TurnEvent)
    ensures TextBlock(b) ==> !Answers(b)
  {
  }

  /** A text block is shown, answer or not, if its message calls a tool anywhere on the page. */
  lemma PromotedAsNarrationIff(rows: seq<TurnEvent>, b: TurnEvent)
    ensures PromotedAsNarration(rows, b) <==>
            && TextBlock(b) && b.row.body.value.messageID != ""
            && exists r :: r in rows && CallsTool(r, b.row.body.value.messageID)
  {
    hide IsProse, PlainEntry, TextBlock, CallsTool;
    ProseIff(b);
    BlockMessage(b);
    forall r ensures PlainEntry(r).kind == ToolCallKind && PlainEntry(r).messageID == PlainEntry(b).messageID <==>
                     CallsTool(r, PlainEntry(b).messageID)
    {
      ToolCallIff(r, PlainEntry(b).messageID);
    }
  }

  lemma BlockMessage(b: TurnEvent)
    ensures TextBlock(b) ==> b.row.body.Some? && PlainEntry(b).messageID == b.row.body.value.messageID
  {
  }

  // ---------------------------------------------------------------- what is shown

  /** Shown whatever else the page holds: conversation, but of a pair only the harness's copy. */
  predicate ShownAlways(b: TurnEvent, pairs: Pairs) {
    && b.row.body.Some?
    && if b.row.id in pairs then b.row.body.value.source == Harness else Conversation(b.row.body.value)
  }

  /** Shown because nothing on the page says it better. */
  predicate ShownForWant(rows: seq<TurnEvent>, b: TurnEvent) {
    || (Recovered(b) && forall r :: r in rows && r.turnID == b.turnID ==> !Answers(r) && !OwnPartial(r))
    || (TextBlock(b) && forall r :: r in rows && r.turnID == b.turnID ==> !Answers(r))
    || (TextBlock(b) && b.row.body.value.messageID != "" && exists r :: r in rows && CallsTool(r, b.row.body.value.messageID))
  }

  predicate Shown(rows: seq<TurnEvent>, pairs: Pairs, b: TurnEvent) {
    ShownAlways(b, pairs) || ShownForWant(rows, b)
  }

  lemma ShownAlwaysIff(b: TurnEvent, pairs: Pairs)
    ensures ShownByDefault(b, pairs) <==> ShownAlways(b, pairs)
  {
  }

  /** An entry is not a duplicate, and is primary, if and only if its event is shown by the rule over fields. */
  lemma ShownIff(rows: seq<TurnEvent>, pairs: Pairs, b: TurnEvent)
    requires b in rows
    ensures !FinalEntry(rows, pairs, b).duplicate <==> Shown(rows, pairs, b)
    ensures FinalEntry(rows, pairs, b).primary <==> Shown(rows, pairs, b)
  {
    hide FinalEntry, ShownByDefault, ShownAlways, PromotedAsRecovered, PromotedAsUnsuperseded, PromotedAsNarration;
    hide Recovered, Answers, OwnPartial, TextBlock, CallsTool;
    VisibleIff(rows, pairs, b);
    ShownAlwaysIff(b, pairs);
    PromotedAsRecoveredIff(rows, b);
    PromotedAsUnsupersededIff(rows, b);
    PromotedAsNarrationIff(rows, b);
  }

  // ---------------------------------------------------------------- the page a reader gets

  /** The ids of the shown ones among some of a page's rows, in order. */
  function ShownIDs(rows: seq<TurnEvent>, pairs: Pairs, part: seq<TurnEvent>): seq<nat> {
    if part == [] then []
    else ShownIDs(rows, pairs, part[..|part| - 1]) +
         if Shown(rows, pairs, part[|part| - 1]) then [part[|part| - 1].row.id] else []
  }

  lemma {:induction false} PrunedAreShown(rows: seq<TurnEvent>, pairs: Pairs, part: seq<TurnEvent>)
    requires DistinctIDs(rows) && forall b :: b in part ==> b in rows
    ensures PrunedIDs(IDsOf(part), KeptOf(EntriesOf(rows, pairs))) == ShownIDs(rows, pairs, part)
  {
    if part != [] {
      hide KeptOf, EntriesOf, Shown, DistinctIDs;
      var init, last := part[..|part| - 1], part[|part| - 1];
      assert part == init + [last];
      assert last in part;
      PrunedAreShown(rows, pairs, init);
      KeptAt(rows, pairs, last);
      ShownIff(rows, pairs, last);
      assert IDsOf(part)[..|IDsOf(part)| - 1] == IDsOf(init);
    }
  }

  /** The reading page of some rows: one turn for each turn id, in order of first appearance, headed by its
      first event, listing its shown events in order; and an entry for exactly the shown events. */
  lemma ReadingPage(rows: seq<TurnEvent>, pairs: Pairs, more: bool)
    requires DistinctIDs(rows)
    ensures var page := Projected(ModelOf(rows, pairs, more));
            && page.more == more && |page.turns| == |TurnIDs(rows)|
            && (forall i :: 0 <= i < |page.turns| ==>
                  var events := EventsOfTurn(rows, i + 1);
                  && page.turns[i].id == TurnIDs(rows)[i]
                  && page.turns[i].entryIDs == ShownIDs(rows, pairs, events)
                  && page.turns[i].role == FinalEntry(rows, pairs, events[0]).role
                  && page.turns[i].ts == FinalEntry(rows, pairs, events[0]).ts)
            && (forall id :: id in page.entries <==> exists b :: b in rows && b.row.id == id && Shown(rows, pairs, b))
            && (forall id :: id in page.entries ==> page.entries[id].raw.None?)
    ensures var groups := Projected(ModelOf(rows, pairs, more)).sourceGroups;
            && (forall g :: g in groups <==> exists b :: b in rows && NamesGroup(b, pairs, g))
            && (forall g :: g in groups ==> groups[g] == [Harness, OTel])
  {
    hide TurnIDs, Keep, EntriesOf, KeptOf, Shown, DistinctIDs, PlainEntry, PrunedIDs, IDsOf, ShownIDs, EventsOfTurn, FinalEntry;
    hide GroupsOf, NamesGroup;
    PageGroupsAre(rows, pairs);
    var page := Projected(ModelOf(rows, pairs, more));
    forall i | 0 <= i < |page.turns|
      ensures page.turns[i].id == TurnIDs(rows)[i]
      ensures page.turns[i].entryIDs == ShownIDs(rows, pairs, EventsOfTurn(rows, i + 1))
      ensures page.turns[i].role == FinalEntry(rows, pairs, EventsOfTurn(rows, i + 1)[0]).role
      ensures page.turns[i].ts == FinalEntry(rows, pairs, EventsOfTurn(rows, i + 1)[0]).ts
    {
      PageTurnIs(rows, pairs, i + 1);
    }
    PageEntriesAre(rows, pairs);
  }

  /** A paired event names the group of the pair's harness event, whether its twin is on the page or not. */
  predicate NamesGroup(b: TurnEvent, pairs: Pairs, g: nat) {
    && b.row.body.Some? && b.row.id in pairs
    && g == if b.row.body.value.source == Harness then b.row.id else pairs[b.row.id]
  }

  /** An entry is in a group if and only if its event is paired, and then in that one, through every pass. */
  lemma GroupIff(rows: seq<TurnEvent>, pairs: Pairs, b: TurnEvent, g: nat)
    ensures FinalEntry(rows, pairs, b).groupID == Some(g) <==> NamesGroup(b, pairs, g)
  {
    hide Classify, Promoted, MessageText, ToolInputOf, ToolResultOf;
  }

  lemma PageGroupsAre(rows: seq<TurnEvent>, pairs: Pairs)
    requires DistinctIDs(rows)
    ensures var groups := GroupsOf(EntriesOf(rows, pairs));
            && (forall g :: g in groups <==> exists b :: b in rows && NamesGroup(b, pairs, g))
            && (forall g :: g in groups ==> groups[g] == [Harness, OTel])
  {
    hide FinalEntry, NamesGroup, EntriesOf, DistinctIDs;
    forall g ensures g in GroupsOf(EntriesOf(rows, pairs)) <==> exists b :: b in rows && NamesGroup(b, pairs, g) {
      PageGroup(rows, pairs, g);
    }
  }

  lemma PageGroup(rows: seq<TurnEvent>, pairs: Pairs, g: nat)
    requires DistinctIDs(rows)
    ensures g in GroupsOf(EntriesOf(rows, pairs)) <==> exists b :: b in rows && NamesGroup(b, pairs, g)
  {
    hide FinalEntry, NamesGroup, DistinctIDs;
    forall b ensures FinalEntry(rows, pairs, b).groupID == Some(g) <==> NamesGroup(b, pairs, g) {
      GroupIff(rows, pairs, b, g);
    }
    var entries := EntriesOf(rows, pairs);
    if b :| b in rows && NamesGroup(b, pairs, g) {
      EntryAt(rows, pairs, b);
      assert entries[b.row.id].groupID.Some?;
    }
    if g in GroupsOf(entries) {
      var id :| id in entries && entries[id].groupID == Some(g);
      var b :| b in rows && b.row.id == id;
      EntryAt(rows, pairs, b);
    }
  }

  lemma PageTurnIs(rows: seq<TurnEvent>, pairs: Pairs, k: nat)
    requires DistinctIDs(rows) && 1 <= k <= |TurnIDs(rows)|
    ensures var events := EventsOfTurn(rows, k);
            && TurnOf(events).id == TurnIDs(rows)[k - 1]
            && PrunedIDs(TurnOf(events).entryIDs, KeptOf(EntriesOf(rows, pairs))) == ShownIDs(rows, pairs, events)
            && TurnOf(events).role == FinalEntry(rows, pairs, events[0]).role
            && TurnOf(events).ts == FinalEntry(rows, pairs, events[0]).ts
  {
    hide TurnIDs, Keep, EntriesOf, KeptOf, Shown, PrunedIDs, IDsOf, ShownIDs, Promoted, PlainEntry;
    TurnRowsAreRows(rows, k);
    var events := EventsOfTurn(rows, k);
    assert events[0] in events;
    PrunedAreShown(rows, pairs, events);
  }

  lemma PageEntriesAre(rows: seq<TurnEvent>, pairs: Pairs)
    requires DistinctIDs(rows)
    ensures var kept := KeptOf(EntriesOf(rows, pairs));
            && (forall id :: id in kept <==> exists b :: b in rows && b.row.id == id && Shown(rows, pairs, b))
            && (forall id :: id in kept ==> kept[id].raw.None?)
  {
    hide FinalEntry, Shown;
    forall b | b in rows ensures !FinalEntry(rows, pairs, b).duplicate <==> Shown(rows, pairs, b) {
      ShownIff(rows, pairs, b);
    }
  }

  // ---------------------------------------------------------------- what an entry says

  /** Role and kind name what the event is. */
  lemma EntryNamesItsEvent(b: TurnEvent)
    requires b.row.body.Some?
    ensures var ev, kind := b.row.body.value, PlainEntry(b).kind;
            && (kind == TextKind <==> ev.typ == UserMessage || (ev.typ in {Stream, Block} && !Reasons(ev)))
            && (kind == ThinkingKind <==> ev.typ == Thinking || (ev.typ in {Stream, Block} && Reasons(ev)))
            && (kind == ResultKind <==> ev.typ == Result) && (kind == ToolCallKind <==> ev.typ == ToolCall)
            && (kind == ToolResultKind <==> ev.typ == ToolResult) && (kind == ErrorKind <==> ev.typ == Error)
            && (kind == FileKind <==> ev.typ == SessionFile) && (kind == ActionKind <==> ev.typ == SessionAction)
            && (kind == SystemKind <==> ev.typ == System)
    ensures var ev, role := b.row.body.value, PlainEntry(b).role;
            && (role == UserRole <==> ev.typ == UserMessage || (ev.typ == SessionFile && !ev.sharedByAgent))
            && (role == ToolRole <==> ev.typ == ToolResult)
            && (role == SystemRole <==> ev.typ == System || (ev.typ == SessionAction && !ev.actionOffered))
  {
  }

  /** An entry carries its event's own identity. */
  lemma EntryIsItsEvents(rows: seq<TurnEvent>, pairs: Pairs, b: TurnEvent)
    requires b.row.body.Some?
    ensures var e, ev := FinalEntry(rows, pairs, b), b.row.body.value;
            && e.eventID == b.row.id && e.turnID == b.turnID && e.source == ev.source && e.ts == ev.ts
            && e.messageID == ev.messageID && e.recovered == ev.recovered && e.display == ev.display && e.raw == Some(b.row)
  {
    hide Classify, Promoted, MessageText, ToolInputOf, ToolResultOf;
  }

  /** An entry carries the text that its type keeps text in. */
  lemma EntryTextIsItsEvents(rows: seq<TurnEvent>, pairs: Pairs, b: TurnEvent)
    requires b.row.body.Some?
    ensures var e, ev := FinalEntry(rows, pairs, b), b.row.body.value;
            && (ev.typ in {UserMessage, Result} ==> e.text == if ev.result.Some? then ev.result.value.text else "")
            && (ev.typ == Thinking && ev.thinking.Some? ==> e.text == ev.thinking.value)
            && (ev.typ == Error && ev.error.Some? ==> e.text == ev.error.value)
            && (ev.typ == System && ev.system.Some? ==> e.text == ev.system.value.message)
            && (ev.typ in {Stream, Block} ==> e.text == PartialText(ev))
            && (ev.typ in {ToolCall, ToolResult, SessionFile, SessionAction} ==> e.text == "")
  {
    hide Promoted, ToolInputOf, ToolResultOf, Classify;
    assert FinalEntry(rows, pairs, b).text == MessageText(b.row.body.value);
  }

  /** Only a tool call carries a tool input, only a tool result a tool output: the event's own. */
  lemma EntryPayloadsAreItsEvents(rows: seq<TurnEvent>, pairs: Pairs, b: TurnEvent)
    requires b.row.body.Some?
    ensures var e, ev := FinalEntry(rows, pairs, b), b.row.body.value;
            && (e.toolInput.Some? <==> ev.typ == ToolCall && ev.toolCall.Some?)
            && (e.toolInput.Some? ==> e.toolInput.value == ev.toolCall.value.value)
            && (e.toolResult.Some? <==> ev.typ == ToolResult && ev.toolResult.Some?)
            && (e.toolResult.Some? ==> e.toolResult == ev.toolResult)
  {
    hide Classify, Promoted, MessageText;
  }

  /** What the builder cannot decode stays on the raw page only. */
  lemma UndecodedIsHidden(rows: seq<TurnEvent>, pairs: Pairs, b: TurnEvent)
    requires b in rows && b.row.body.None?
    ensures FinalEntry(rows, pairs, b).duplicate && FinalEntry(rows, pairs, b).groupID.None?
  {
    hide FinalEntry;
    ShownIff(rows, pairs, b);
    UndecodedHasNoGroup(rows, pairs, b);
  }

  lemma UndecodedHasNoGroup(rows: seq<TurnEvent>, pairs: Pairs, b: TurnEvent)
    requires b.row.body.None?
    ensures FinalEntry(rows, pairs, b).groupID.None?
  {
  }
}
