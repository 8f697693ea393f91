/** The passes meet the closed form: which entries a reader sees, as one predicate over the rows. */
module Visibility {
  import opened Options
  import opened Events
  import opened TurnRule
  import opened IndexRules
  import opened TurnIndex
  import opened Dedup
  import opened TurnModel
  import opened Passes

  /** The entries before any pass. */
  function FirstPass(rows: seq<TurnEvent>, pairs: Pairs): Entries
    requires DistinctIDs(rows)
  {
    map b | b in rows :: b.row.id := EntryOf(b, pairs)
  }

  function TextBlockIDs(rows: seq<TurnEvent>): set<nat> {
    set b | b in rows && IsTextBlock(b.row) :: b.row.id
  }

  lemma {:induction false} IDsOfMembers(rows: seq<TurnEvent>)
    ensures forall x :: x in IDsOf(rows) <==> exists b :: b in rows && b.row.id == x
  {
    if rows != [] {
      var init, last := rows[..|rows| - 1], rows[|rows| - 1];
      assert rows == init + [last];
      IDsOfMembers(init);
      assert last in rows;
      forall x | x in IDsOf(init) ensures exists b :: b in rows && b.row.id == x {
        var b :| b in init && b.row.id == x;
        assert b in rows;
      }
    }
  }

  /** A turn of the list holds exactly the rows with its turn id. */
  lemma TurnListed(rows: seq<TurnEvent>, t: Turn)
    requires t in TurnListOf(rows)
    ensures forall x :: x in t.entryIDs <==> exists b :: b in rows && b.turnID == t.id && b.row.id == x
  {
    hide TurnIDs, Keep;
    var i :| 0 <= i < |TurnIDs(rows)| && TurnListOf(rows)[i] == t;
    var events := EventsOfTurn(rows, i + 1);
    KeepMembers(rows, {TurnIDs(rows)[i]});
    assert events[0] in events;
    IDsOfMembers(events);
  }

  lemma TurnOfRow(rows: seq<TurnEvent>, b: TurnEvent)
    requires b in rows
    ensures exists t :: t in TurnListOf(rows) && t.id == b.turnID
  {
    hide TurnIDs, Keep, IDsOf;
    TurnIDsMembers(rows);
    var i :| 0 <= i < |TurnIDs(rows)| && TurnIDs(rows)[i] == b.turnID;
    var t := TurnListOf(rows)[i];
    var events := EventsOfTurn(rows, i + 1);
    KeepMembers(rows, {TurnIDs(rows)[i]});
    assert events[0] in events;
    assert t in TurnListOf(rows) && t.id == b.turnID;
  }

  lemma EntryFacts(b: TurnEvent, pairs: Pairs)
    ensures Promote(EntryOf(b, pairs)).(groupID := None) == Promote(PlainEntry(b))
    ensures var e, p := EntryOf(b, pairs), PlainEntry(b);
            && e.text == p.text && e.kind == p.kind && e.messageID == p.messageID
            && IsRecoveredOrOTelAssistantText(e) == IsRecoveredOrOTelAssistantText(p)
            && SupersedesRecovered(e) == SupersedesRecovered(p) && SupersedesBlocks(e) == SupersedesBlocks(p)
  {
  }

  lemma FirstPassFacts(rows: seq<TurnEvent>, pairs: Pairs)
    requires DistinctIDs(rows)
    ensures var f := FirstPass(rows, pairs);
            && (forall x :: x in f <==> exists b :: b in rows && b.row.id == x)
            && forall b :: b in rows ==>
              && f[b.row.id].text == PlainEntry(b).text && f[b.row.id].kind == PlainEntry(b).kind
              && f[b.row.id].messageID == PlainEntry(b).messageID
              && IsRecoveredOrOTelAssistantText(f[b.row.id]) == IsRecoveredOrOTelAssistantText(PlainEntry(b))
              && SupersedesRecovered(f[b.row.id]) == SupersedesRecovered(PlainEntry(b))
              && SupersedesBlocks(f[b.row.id]) == SupersedesBlocks(PlainEntry(b))
              && IsCandidateBlock(f, TextBlockIDs(rows), b.row.id) == IsProse(b)
  {
    hide PlainEntry, EntryOf, IsRecoveredOrOTelAssistantText, SupersedesRecovered, SupersedesBlocks, IsTextBlock;
    forall b | b in rows
      ensures FirstPass(rows, pairs)[b.row.id] == EntryOf(b, pairs)
      ensures b.row.id in TextBlockIDs(rows) <==> IsTextBlock(b.row)
    {
    }
    forall b | b in rows ensures EntryOf(b, pairs).text == PlainEntry(b).text && EntryOf(b, pairs).kind == PlainEntry(b).kind
      && EntryOf(b, pairs).messageID == PlainEntry(b).messageID
      && IsRecoveredOrOTelAssistantText(EntryOf(b, pairs)) == IsRecoveredOrOTelAssistantText(PlainEntry(b))
      && SupersedesRecovered(EntryOf(b, pairs)) == SupersedesRecovered(PlainEntry(b))
      && SupersedesBlocks(EntryOf(b, pairs)) == SupersedesBlocks(PlainEntry(b))
    {
      EntryFacts(b, pairs);
    }
  }

  lemma SupersededInTurn(rows: seq<TurnEvent>, pairs: Pairs, t: Turn)
    requires DistinctIDs(rows) && t in TurnListOf(rows)
    ensures var f := FirstPass(rows, pairs);
            && TurnRecoveredSuperseded(t, f) == RecoveredSuperseded(rows, t.id)
            && TurnBlocksSuperseded(t, f, TextBlockIDs(rows)) == BlocksSuperseded(rows, t.id)
  {
    hide TurnListOf, FirstPass, TextBlockIDs, DistinctIDs, TurnRecoveredSuperseded, RecoveredSuperseded;
    hide TurnBlocksSuperseded, BlocksSuperseded;
    RecoveredSupersededInTurn(rows, pairs, t);
    BlocksSupersededInTurn(rows, pairs, t);
  }

  lemma RecoveredSupersededInTurn(rows: seq<TurnEvent>, pairs: Pairs, t: Turn)
    requires DistinctIDs(rows) && t in TurnListOf(rows)
    ensures TurnRecoveredSuperseded(t, FirstPass(rows, pairs)) == RecoveredSuperseded(rows, t.id)
  {
    hide PlainEntry, EntryOf, IsRecoveredOrOTelAssistantText, SupersedesRecovered, SupersedesBlocks, IsTextBlock;
    hide IsProse, IsCandidateBlock, TurnListOf, FirstPass, TextBlockIDs, DistinctIDs;
    TurnListed(rows, t);
    FirstPassFacts(rows, pairs);
    if RecoveredSuperseded(rows, t.id) {
      var r :| r in rows && r.turnID == t.id && !IsRecoveredOrOTelAssistantText(PlainEntry(r)) && SupersedesRecovered(PlainEntry(r));
      assert r.row.id in t.entryIDs;
    }
  }

  lemma BlocksSupersededInTurn(rows: seq<TurnEvent>, pairs: Pairs, t: Turn)
    requires DistinctIDs(rows) && t in TurnListOf(rows)
    ensures TurnBlocksSuperseded(t, FirstPass(rows, pairs), TextBlockIDs(rows)) == BlocksSuperseded(rows, t.id)
  {
    hide PlainEntry, EntryOf, IsRecoveredOrOTelAssistantText, SupersedesRecovered, SupersedesBlocks, IsTextBlock;
    hide IsProse, IsCandidateBlock, TurnListOf, FirstPass, TextBlockIDs, DistinctIDs;
    TurnListed(rows, t);
    FirstPassFacts(rows, pairs);
    if BlocksSuperseded(rows, t.id) {
      var r :| r in rows && r.turnID == t.id && !IsProse(r) && SupersedesBlocks(PlainEntry(r));
      assert r.row.id in t.entryIDs;
    }
  }

  lemma HitsArePromotions(rows: seq<TurnEvent>, pairs: Pairs, b: TurnEvent)
    requires DistinctIDs(rows) && b in rows
    ensures var turns, f, texts := TurnListOf(rows), FirstPass(rows, pairs), TextBlockIDs(rows);
            && RecoveredHit(turns, f, b.row.id) == PromotedAsRecovered(rows, b)
            && UnsupersededHit(turns, f, texts, b.row.id) == PromotedAsUnsuperseded(rows, b)
            && NarrationHit(f, texts, b.row.id) == PromotedAsNarration(rows, b)
  {
    hide PlainEntry, EntryOf, IsRecoveredOrOTelAssistantText, SupersedesRecovered, SupersedesBlocks, IsTextBlock;
    hide IsProse, IsCandidateBlock, TurnListOf, FirstPass, TextBlockIDs, TurnRecoveredSuperseded, TurnBlocksSuperseded;
    hide RecoveredSuperseded, BlocksSuperseded;
    var turns, f, texts := TurnListOf(rows), FirstPass(rows, pairs), TextBlockIDs(rows);
    FirstPassFacts(rows, pairs);
    TurnOfRow(rows, b);
    var t :| t in turns && t.id == b.turnID;
    TurnListed(rows, t);
    SupersededInTurn(rows, pairs, t);
    forall u | u in turns && b.row.id in u.entryIDs
      ensures TurnRecoveredSuperseded(u, f) == RecoveredSuperseded(rows, b.turnID)
      ensures TurnBlocksSuperseded(u, f, texts) == BlocksSuperseded(rows, b.turnID)
    {
      TurnListed(rows, u);
      SupersededInTurn(rows, pairs, u);
    }
    assert b.row.id in t.entryIDs;
    NarrationIsTooled(rows, pairs, PlainEntry(b).messageID);
  }

  lemma NarrationIsTooled(rows: seq<TurnEvent>, pairs: Pairs, messageID: string)
    requires DistinctIDs(rows)
    ensures MessageTooled(FirstPass(rows, pairs), messageID) == Tooled(rows, messageID)
  {
    hide PlainEntry, EntryOf, FirstPass, IsRecoveredOrOTelAssistantText, SupersedesRecovered, SupersedesBlocks, IsCandidateBlock;
    var f := FirstPass(rows, pairs);
    FirstPassFacts(rows, pairs);
    if Tooled(rows, messageID) {
      var r :| r in rows && PlainEntry(r).kind == ToolCallKind && PlainEntry(r).messageID == messageID;
      assert r.row.id in f;
    }
  }

  function ThreePasses(turns: seq<Turn>, texts: set<nat>, entries: Entries): Entries {
    NarrationPass(texts, UnsupersededPass(turns, texts, RecoveredPass(turns, entries)))
  }

  lemma ThreePassesAt(turns: seq<Turn>, texts: set<nat>, f: Entries, id: nat)
    requires id in f
    ensures ThreePasses(turns, texts, f).Keys == f.Keys
    ensures ThreePasses(turns, texts, f)[id] ==
            if RecoveredHit(turns, f, id) || UnsupersededHit(turns, f, texts, id) || NarrationHit(f, texts, id)
            then Promote(f[id]) else f[id]
  {
    hide RecoveredHit, UnsupersededHit, NarrationHit, SameFacts;
    var f1 := RecoveredPass(turns, f);
    PassesKeepFacts(turns, texts, f);
    PassesKeepFacts(turns, texts, f1);
    HitsIgnoreAnnotation(turns, texts, f, f1);
    HitsIgnoreAnnotation(turns, texts, f1, UnsupersededPass(turns, texts, f1));
  }

  lemma FirstPassAt(rows: seq<TurnEvent>, pairs: Pairs, b: TurnEvent)
    requires DistinctIDs(rows) && b in rows
    ensures b.row.id in FirstPass(rows, pairs) && FirstPass(rows, pairs)[b.row.id] == EntryOf(b, pairs)
    ensures b.row.id in EntriesOf(rows, pairs) && EntriesOf(rows, pairs)[b.row.id] == FinalEntry(rows, pairs, b)
    ensures FirstPass(rows, pairs).Keys == EntriesOf(rows, pairs).Keys
  {
    hide EntryOf, FinalEntry;
  }

  /** The three passes, run in the builder's order on the first pass's entries, give every row the entry
      of the closed form. */
  lemma PassesMeetClosedForm(rows: seq<TurnEvent>, pairs: Pairs)
    requires DistinctIDs(rows)
    ensures ThreePasses(TurnListOf(rows), TextBlockIDs(rows), FirstPass(rows, pairs)) == EntriesOf(rows, pairs)
  {
    hide RecoveredHit, UnsupersededHit, NarrationHit, TurnListOf, TextBlockIDs, EntryOf, ThreePasses;
    hide PromotedAsRecovered, PromotedAsUnsuperseded, PromotedAsNarration;
    var turns, texts, f := TurnListOf(rows), TextBlockIDs(rows), FirstPass(rows, pairs);
    if rows == [] {
      assert f == map[] && EntriesOf(rows, pairs) == map[];
      NoEntries(turns, texts);
    } else {
      FirstPassAt(rows, pairs, rows[0]);
      ThreePassesAt(turns, texts, f, rows[0].row.id);
    }
    forall b | b in rows ensures ThreePasses(turns, texts, f)[b.row.id] == FinalEntry(rows, pairs, b) {
      FirstPassAt(rows, pairs, b);
      ThreePassesAt(turns, texts, f, b.row.id);
      HitsArePromotions(rows, pairs, b);
    }
  }

  lemma NoEntries(turns: seq<Turn>, texts: set<nat>)
    ensures ThreePasses(turns, texts, map[]) == map[]
  {
  }

  // ---------------------------------------------------------------- the rule a reader relies on

  /** Shown without any promotion: conversation, unless it is the OTel copy of a pair. */
  predicate ShownByDefault(b: TurnEvent, pairs: Pairs) {
    && b.row.body.Some?
    && if b.row.id in pairs then b.row.body.value.source != OTel else Classify(b.row.body.value).conversation
  }

  /** An entry is visible if and only if it is shown by default, is recovered or OTel text nothing in its
      turn supersedes, is harness prose no result in its turn supersedes, or narrates a tool call of its
      own message; and primary is always the opposite of duplicate. */
  lemma VisibleIff(rows: seq<TurnEvent>, pairs: Pairs, b: TurnEvent)
    requires b in rows
    ensures !FinalEntry(rows, pairs, b).duplicate <==>
            || ShownByDefault(b, pairs)
            || PromotedAsRecovered(rows, b) || PromotedAsUnsuperseded(rows, b) || PromotedAsNarration(rows, b)
    ensures FinalEntry(rows, pairs, b).primary == !FinalEntry(rows, pairs, b).duplicate
  {
    hide PromotedAsRecovered, PromotedAsUnsuperseded, PromotedAsNarration;
  }

  /** No pass touches a copy that can pair: the twin of a pair stays hidden, and only it. */
  lemma PairedCopiesKeepTheirAnnotation(rows: seq<TurnEvent>, pairs: Pairs, b: TurnEvent)
    requires CandidateOf(b.row).Some?
    ensures !Promoted(rows, b)
    ensures FinalEntry(rows, pairs, b).duplicate <==> b.row.id in pairs && b.row.body.value.source == OTel
  {
    hide RecoveredSuperseded, BlocksSuperseded, Tooled;
    var ev := b.row.body.value;
    assert CandidateType(ev.typ);
    assert Classify(ev).conversation;
    assert !IsTextBlock(b.row);
    assert !IsRecoveredOrOTelAssistantText(PlainEntry(b));
  }

  // ---------------------------------------------------------------- the first two passes are disjoint

  /** One payload per block event: no stream delta, and no reasoning beside the text. */
  predicate OneVariant(row: EventRow) {
    IsTextBlock(row) ==> !IsReasoningPayload(row.body.value)
  }

  /** Prose supersedes recovered text in its turn exactly when it is not filed as reasoning. */
  lemma ProseSupersedesRecovered(b: TurnEvent)
    requires IsProse(b)
    ensures SupersedesRecovered(PlainEntry(b)) <==> OneVariant(b.row)
  {
  }

  /** With one payload per block, no turn is promoted by both of the first two passes. */
  lemma FirstTwoPassesNeverMeet(rows: seq<TurnEvent>, a: TurnEvent, b: TurnEvent)
    requires a in rows && b in rows && a.turnID == b.turnID && OneVariant(b.row)
    ensures !(PromotedAsRecovered(rows, a) && PromotedAsUnsuperseded(rows, b))
  {
    hide PlainEntry, SupersedesRecovered, OneVariant;
    if PromotedAsUnsuperseded(rows, b) {
      ProseSupersedesRecovered(b);
      assert RecoveredSuperseded(rows, b.turnID);
    }
  }

  /** Without it they can: a block with text and reasoning beside a recovered text block. */
  lemma FirstTwoPassesMeet(a: TurnEvent, b: TurnEvent)
    requires a.turnID == b.turnID && IsProse(b) && !OneVariant(b.row)
    requires IsRecoveredOrOTelAssistantText(PlainEntry(a))
    ensures PromotedAsRecovered([a, b], a) && PromotedAsUnsuperseded([a, b], b)
  {
    ProseSupersedesRecovered(b);
    assert forall r :: r in [a, b] ==> r == a || r == b;
  }

  /** Some page with these rows promotes both. */
  ghost predicate SomePagePromotesBoth(a: TurnEvent, b: TurnEvent) {
    exists rows :: a in rows && b in rows && PromotedAsRecovered(rows, a) && PromotedAsUnsuperseded(rows, b)
  }

  /** Some page promotes recovered text and prose in one turn, the one by the first pass and the other by
      the second, if and only if the prose's block carries reasoning too. */
  lemma FirstTwoPassesMeetIff(a: TurnEvent, b: TurnEvent)
    requires a.turnID == b.turnID && IsProse(b) && IsRecoveredOrOTelAssistantText(PlainEntry(a))
    ensures SomePagePromotesBoth(a, b) <==> !OneVariant(b.row)
  {
    hide PlainEntry, OneVariant, IsProse, PromotedAsRecovered, PromotedAsUnsuperseded;
    if OneVariant(b.row) {
      forall rows | a in rows && b in rows ensures !(PromotedAsRecovered(rows, a) && PromotedAsUnsuperseded(rows, b)) {
        FirstTwoPassesNeverMeet(rows, a, b);
      }
    } else {
      FirstTwoPassesMeet(a, b);
      assert a in [a, b] && b in [a, b];
    }
  }
}
