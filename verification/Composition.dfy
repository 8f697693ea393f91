/** Building turn by turn against building a page at once: which entries agree, and exactly when. */
module Composition {
  import opened Options
  import opened Events
  import opened TurnRule
  import opened TurnIndex
  import opened IndexFacts
  import opened Dedup
  import opened TurnModel
  import opened Visibility

  /** A tool call of this message in this turn. */
  predicate TooledInTurn(rows: seq<TurnEvent>, turnID: string, messageID: string) {
    messageID != "" && exists r :: r in rows && r.turnID == turnID
                                   && PlainEntry(r).kind == ToolCallKind && PlainEntry(r).messageID == messageID
  }

  /** The one way a page can show what the turn alone hides: prose a result of its own turn supersedes,
      whose message has its only tool calls in other turns of the page. */
  predicate NarratesAcrossTurns(rows: seq<TurnEvent>, pairs: Pairs, b: TurnEvent) {
    && IsProse(b) && EntryOf(b, pairs).duplicate && BlocksSuperseded(rows, b.turnID)
    && Tooled(rows, PlainEntry(b).messageID) && !TooledInTurn(rows, b.turnID, PlainEntry(b).messageID)
  }

  predicate NarrationStaysInTurns(rows: seq<TurnEvent>, pairs: Pairs) {
    forall b :: b in rows ==> !NarratesAcrossTurns(rows, pairs, b)
  }

  /** What a turn's rows say about the turn is what the page's rows say about it. */
  lemma TurnRowsDecide(rows: seq<TurnEvent>, id: string, messageID: string)
    ensures var own := Keep(rows, {id});
            && RecoveredSuperseded(own, id) == RecoveredSuperseded(rows, id)
            && BlocksSuperseded(own, id) == BlocksSuperseded(rows, id)
            && Tooled(own, messageID) == TooledInTurn(rows, id, messageID)
            && (Tooled(own, messageID) ==> Tooled(rows, messageID))
  {
    hide Keep, PlainEntry, IsProse, IsRecoveredOrOTelAssistantText, SupersedesRecovered, SupersedesBlocks;
    KeepMembers(rows, {id});
  }

  lemma ShownEntryIsPromoted(b: TurnEvent, pairs: Pairs)
    requires !EntryOf(b, pairs).duplicate
    ensures Promote(EntryOf(b, pairs)) == EntryOf(b, pairs)
  {
  }

  /** An entry built with its turn alone is the entry built with the page, but for narration across turns. */
  lemma TurnEntryIsPageEntryIff(rows: seq<TurnEvent>, pairs: Pairs, b: TurnEvent)
    ensures var own := Keep(rows, {b.turnID});
            FinalEntry(own, pairs, b) == FinalEntry(rows, pairs, b) <==> !NarratesAcrossTurns(rows, pairs, b)
    ensures NarratesAcrossTurns(rows, pairs, b) ==>
              FinalEntry(Keep(rows, {b.turnID}), pairs, b).duplicate && !FinalEntry(rows, pairs, b).duplicate
    ensures FinalEntry(Keep(rows, {b.turnID}), pairs, b).groupID == FinalEntry(rows, pairs, b).groupID == EntryOf(b, pairs).groupID
  {
    hide Keep, PlainEntry, EntryOf, RecoveredSuperseded, BlocksSuperseded, Tooled, TooledInTurn, IsRecoveredOrOTelAssistantText;
    hide IsProse, Promote;
    TurnRowsDecide(rows, b.turnID, PlainEntry(b).messageID);
    PromotedIsShown(EntryOf(b, pairs));
    if !EntryOf(b, pairs).duplicate {
      ShownEntryIsPromoted(b, pairs);
    }
    ProseIsNotRecovered(b);
  }

  lemma PromotedIsShown(e: Entry)
    ensures !Promote(e).duplicate && Promote(e).groupID == e.groupID
  {
  }

  lemma ProseIsNotRecovered(b: TurnEvent)
    ensures IsProse(b) ==> !IsRecoveredOrOTelAssistantText(PlainEntry(b))
  {
  }

  // ---------------------------------------------------------------- rows, turns and entries

  lemma RisingIsDistinct(rows: seq<TurnEvent>)
    requires Rising(rows)
    ensures DistinctIDs(rows)
  {
    forall b, c | b in rows && c in rows && b.row.id == c.row.id ensures b == c {
      var i :| 0 <= i < |rows| && rows[i] == b;
      var j :| 0 <= j < |rows| && rows[j] == c;
    }
  }

  lemma TurnRowsDistinct(rows: seq<TurnEvent>, id: string)
    requires DistinctIDs(rows)
    ensures DistinctIDs(Keep(rows, {id}))
  {
    hide Keep;
    KeepMembers(rows, {id});
  }

  /** Every row is in the rows of its turn. */
  lemma RowInItsTurn(rows: seq<TurnEvent>, b: TurnEvent)
    requires b in rows
    ensures exists k :: 1 <= k <= |TurnIDs(rows)| && TurnIDs(rows)[k - 1] == b.turnID && b in EventsOfTurn(rows, k)
  {
    hide TurnIDs, Keep;
    TurnIDsMembers(rows);
    var i :| 0 <= i < |TurnIDs(rows)| && TurnIDs(rows)[i] == b.turnID;
    KeepMembers(rows, {TurnIDs(rows)[i]});
    assert b in EventsOfTurn(rows, i + 1);
  }

  lemma TurnRowsAreRows(rows: seq<TurnEvent>, k: nat)
    requires 1 <= k <= |TurnIDs(rows)|
    ensures forall b :: b in EventsOfTurn(rows, k) <==> b in rows && b.turnID == TurnIDs(rows)[k - 1]
    ensures EventsOfTurn(rows, k) == Keep(rows, {TurnIDs(rows)[k - 1]})
  {
    hide TurnIDs, Keep;
    KeepMembers(rows, {TurnIDs(rows)[k - 1]});
  }

  lemma EntryAt(rows: seq<TurnEvent>, pairs: Pairs, b: TurnEvent)
    requires DistinctIDs(rows) && b in rows
    ensures b.row.id in EntriesOf(rows, pairs) && EntriesOf(rows, pairs)[b.row.id] == FinalEntry(rows, pairs, b)
  {
    hide FinalEntry;
  }

  lemma KeptAt(rows: seq<TurnEvent>, pairs: Pairs, b: TurnEvent)
    requires DistinctIDs(rows) && b in rows
    ensures var kept := KeptOf(EntriesOf(rows, pairs));
            && (b.row.id in kept <==> !FinalEntry(rows, pairs, b).duplicate)
            && (b.row.id in kept ==> kept[b.row.id] == FinalEntry(rows, pairs, b).(raw := None))
  {
    hide FinalEntry;
    EntryAt(rows, pairs, b);
  }

  lemma {:induction false} PrunedFollows(ids: seq<nat>, a: map<nat, Entry>, b: map<nat, Entry>)
    requires forall x :: x in ids ==> (x in a <==> x in b)
    ensures PrunedIDs(ids, a) == PrunedIDs(ids, b)
  {
    if ids != [] {
      assert ids == ids[..|ids| - 1] + [ids[|ids| - 1]];
      PrunedFollows(ids[..|ids| - 1], a, b);
    }
  }
}
