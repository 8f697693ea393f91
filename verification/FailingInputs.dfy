/** Concrete inputs on which the conditions of the page and of the grouping fail. */
module FailingInputs {
  import opened Options
  import opened Events
  import opened TurnRule
  import opened IndexRules
  import opened TurnIndex
  import opened Dedup
  import opened TurnModel
  import opened Grouping
  import opened Composition
  import opened StoredPage
  import opened PageEquality

  /** An event with nothing in it but its type and its ids. */
  function Signal(typ: EventType, turnID: string, messageID: string): Event {
    Event(typ, turnID, messageID, Harness, false, "", "", None, None, None, None, None, None, false, false,
          None, None, None, None, None)
  }

  // ---------------------------------------------------------------- narration across turns

  /** Text of message "m" and a result in one turn. */
  const Prose := TurnEvent("a", EventRow(1, Block, "a",
                   Some(Signal(Block, "a", "m").(block := Some(BlockPayload(Some("look"), None, false))))))
  const Answer := TurnEvent("a", EventRow(2, Result, "a",
                    Some(Signal(Result, "a", "").(result := Some(ResultPayload("done", Usage(0, 0)))))))

  /** The tool call of message "m", in the next turn. */
  const Call := TurnEvent("b", EventRow(3, ToolCall, "b", Some(Signal(ToolCall, "b", "m"))))

  const NarratingPage := [Prose, Answer, Call]

  lemma ProseNarratesForTheNextTurn()
    ensures Rising(NarratingPage) && DistinctIDs(NarratingPage)
    ensures NarratesAcrossTurns(NarratingPage, map[], Prose)
  {
    hide PlainEntry, IsProse, SupersedesBlocks, EntryOf, DistinctIDs;
    var rows := NarratingPage;
    RisingIsDistinct(rows);
    ProseRow();
    AnswerRow();
    CallRow();
    assert rows[0] == Prose && rows[1] == Answer && rows[2] == Call;
    assert Answer in rows && Call in rows;
  }

  lemma ProseRow()
    ensures IsProse(Prose) && EntryOf(Prose, map[]).duplicate
    ensures PlainEntry(Prose).messageID == "m" && PlainEntry(Prose).kind == TextKind
  {
  }

  lemma AnswerRow()
    ensures !IsProse(Answer) && SupersedesBlocks(PlainEntry(Answer)) && PlainEntry(Answer).kind == ResultKind
  {
  }

  lemma CallRow()
    ensures PlainEntry(Call).kind == ToolCallKind && PlainEntry(Call).messageID == "m"
  {
  }

  /** The stored page of these three events hides the text that the page built at once shows. */
  lemma StoredPageHidesNarration(stored: seq<Entry>, more: bool)
    requires DistinctIDs(NarratingPage) && HoldsEntriesOf(stored, BuiltTurns(NarratingPage, map[]))
    ensures Rising(NarratingPage) && EntryMap(stored).Keys <= RowsByID(NarratingPage).Keys
    ensures OwnEntry(NarratingPage, map[], Prose).duplicate && !FinalEntry(NarratingPage, map[], Prose).duplicate
    ensures FullPage(Assembled(BuiltTurns(NarratingPage, map[]), stored, more), NarratingPage)
            != Projected(ModelOf(NarratingPage, map[], more))
  {
    hide Rising, DistinctIDs, EntriesOf, EntryMap, BuiltTurns, HoldsEntriesOf, FullPage, Assembled, Projected, ModelOf, RowsByID;
    hide FinalEntry, NarratesAcrossTurns, TurnIDs, Keep;
    ProseNarratesForTheNextTurn();
    TurnEntryIsPageEntryIff(NarratingPage, map[], Prose);
    assert Prose in NarratingPage;
    StoredPageIsRebuiltPageIff(NarratingPage, map[], stored, more);
  }

  // ---------------------------------------------------------------- grouping without the index

  /** A decoded event of turn "a", then one whose turn_id is readable but whose body is not an event. */
  const Undecodable := [EventRow(1, UserMessage, "a", Some(Signal(UserMessage, "a", ""))), EventRow(2, Result, "b", None)]

  /** The index puts the second event in turn "b", the builder left to itself in turn "a". */
  lemma UndecodableEventIsGroupedApart()
    ensures Tagged(OwnRules, Undecodable)[1].turnID == "b" && Settled(Bare(Undecodable))[1].turnID == "a"
    ensures !SameTurns(Undecodable)
  {
    hide Tagged, Settled, Bare, LastSettled, LastTurnID, GivenTurnID, SameTurns;
    var first, second := Undecodable[0], Undecodable[1];
    assert Undecodable == [first] + [second] && [first] == [] + [first];
    NothingGrouped();
    TaggedSnoc(OwnRules, [], first);
    TaggedSnoc(OwnRules, [first], second);
    BareSnoc([], first);
    BareSnoc([first], second);
    SettledSnoc(Bare([]), TurnEvent("", first));
    SettledSnoc(Bare([first]), TurnEvent("", second));
    GivenIDs();
    GroupingMatchesIndexIff(Undecodable);
  }

  lemma NothingGrouped()
    ensures Tagged(OwnRules, []) == [] && Settled(Bare([])) == [] && LastTurnID(OwnRules, []) == "" && LastSettled(Bare([])) == ""
  {
  }

  lemma GivenIDs()
    ensures GivenTurnID(TurnEvent("", Undecodable[0])) == "a" && GivenTurnID(TurnEvent("", Undecodable[1])) == ""
  {
  }
}
