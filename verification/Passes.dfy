/** The three promotion passes as functions of the turns and the entries, what they keep, and the closed
    form they add up to. */
module Passes {
  import opened Options
  import opened Events
  import opened TurnRule
  import opened TurnIndex
  import opened Dedup
  import opened TurnModel

  type Entries = map<nat, Entry>

  // ---------------------------------------------------------------- the passes

  predicate TurnRecoveredSuperseded(t: Turn, entries: Entries) {
    exists x :: x in t.entryIDs && x in entries
                && !IsRecoveredOrOTelAssistantText(entries[x]) && SupersedesRecovered(entries[x])
  }

  predicate IsCandidateBlock(entries: Entries, textBlocks: set<nat>, id: nat) {
    id in entries && id in textBlocks && entries[id].text != "" && !IsRecoveredOrOTelAssistantText(entries[id])
  }

  predicate TurnBlocksSuperseded(t: Turn, entries: Entries, textBlocks: set<nat>) {
    exists x :: x in t.entryIDs && x in entries && !IsCandidateBlock(entries, textBlocks, x) && SupersedesBlocks(entries[x])
  }

  predicate MessageTooled(entries: Entries, messageID: string) {
    messageID != "" && exists x :: x in entries && entries[x].kind == ToolCallKind && entries[x].messageID == messageID
  }

  predicate RecoveredHit(turns: seq<Turn>, entries: Entries, id: nat) {
    && id in entries && IsRecoveredOrOTelAssistantText(entries[id])
    && exists t :: t in turns && id in t.entryIDs && !TurnRecoveredSuperseded(t, entries)
  }

  predicate UnsupersededHit(turns: seq<Turn>, entries: Entries, textBlocks: set<nat>, id: nat) {
    && IsCandidateBlock(entries, textBlocks, id)
    && exists t :: t in turns && id in t.entryIDs && !TurnBlocksSuperseded(t, entries, textBlocks)
  }

  predicate NarrationHit(entries: Entries, textBlocks: set<nat>, id: nat) {
    IsCandidateBlock(entries, textBlocks, id) && MessageTooled(entries, entries[id].messageID)
  }

  /** surfaceRecoveredBlocks. */
  function RecoveredPass(turns: seq<Turn>, entries: Entries): Entries {
    map id | id in entries :: if RecoveredHit(turns, entries, id) then Promote(entries[id]) else entries[id]
  }

  /** surfaceUnsupersededBlocks. */
  function UnsupersededPass(turns: seq<Turn>, textBlocks: set<nat>, entries: Entries): Entries {
    map id | id in entries :: if UnsupersededHit(turns, entries, textBlocks, id) then Promote(entries[id]) else entries[id]
  }

  /** surfaceNarrationBlocks. */
  function NarrationPass(textBlocks: set<nat>, entries: Entries): Entries {
    map id | id in entries :: if NarrationHit(entries, textBlocks, id) then Promote(entries[id]) else entries[id]
  }

  // ---------------------------------------------------------------- what no pass changes

  /** The same entries up to annotation. */
  ghost predicate SameFacts(a: Entries, b: Entries) {
    a.Keys == b.Keys && forall id :: id in a ==> Promote(a[id]) == Promote(b[id])
  }

  lemma SameEntryFacts(a: Entry, b: Entry)
    requires Promote(a) == Promote(b)
    ensures a.text == b.text && a.kind == b.kind && a.messageID == b.messageID
    ensures IsRecoveredOrOTelAssistantText(a) == IsRecoveredOrOTelAssistantText(b)
    ensures SupersedesRecovered(a) == SupersedesRecovered(b) && SupersedesBlocks(a) == SupersedesBlocks(b)
  {
    var p, q := Promote(a), Promote(b);
    assert p.text == a.text && q.text == b.text;
    assert p.kind == a.kind && q.kind == b.kind && p.role == a.role && q.role == b.role;
    assert p.messageID == a.messageID && q.messageID == b.messageID;
    assert p.source == a.source && q.source == b.source && p.recovered == a.recovered && q.recovered == b.recovered;
  }

  lemma HitsIgnoreAnnotation(turns: seq<Turn>, textBlocks: set<nat>, a: Entries, b: Entries)
    requires SameFacts(a, b)
    ensures forall id :: RecoveredHit(turns, a, id) == RecoveredHit(turns, b, id)
    ensures forall id :: UnsupersededHit(turns, a, textBlocks, id) == UnsupersededHit(turns, b, textBlocks, id)
    ensures forall id :: NarrationHit(a, textBlocks, id) == NarrationHit(b, textBlocks, id)
  {
    hide IsRecoveredOrOTelAssistantText, SupersedesRecovered, SupersedesBlocks, Promote;
    forall x | x in a
      ensures x in b && a[x].text == b[x].text && a[x].kind == b[x].kind && a[x].messageID == b[x].messageID
      ensures IsRecoveredOrOTelAssistantText(a[x]) == IsRecoveredOrOTelAssistantText(b[x])
      ensures SupersedesRecovered(a[x]) == SupersedesRecovered(b[x]) && SupersedesBlocks(a[x]) == SupersedesBlocks(b[x])
    {
      SameEntryFacts(a[x], b[x]);
    }
    assert forall t :: TurnRecoveredSuperseded(t, a) == TurnRecoveredSuperseded(t, b);
    assert forall x :: IsCandidateBlock(a, textBlocks, x) == IsCandidateBlock(b, textBlocks, x);
    assert forall t :: TurnBlocksSuperseded(t, a, textBlocks) == TurnBlocksSuperseded(t, b, textBlocks);
    assert forall m :: MessageTooled(a, m) == MessageTooled(b, m);
  }

  lemma PassesKeepFacts(turns: seq<Turn>, textBlocks: set<nat>, entries: Entries)
    ensures SameFacts(entries, RecoveredPass(turns, entries))
    ensures SameFacts(entries, UnsupersededPass(turns, textBlocks, entries))
    ensures SameFacts(entries, NarrationPass(textBlocks, entries))
  {
    hide RecoveredHit, UnsupersededHit, NarrationHit, Promote;
    forall e ensures Promote(Promote(e)) == Promote(e) {
      PromoteTwice(e);
    }
  }

  lemma PromoteTwice(e: Entry)
    ensures Promote(Promote(e)) == Promote(e)
  {
  }

  /** Every pass only reveals, and leaves primary the opposite of duplicate. */
  lemma PassesOnlyReveal(turns: seq<Turn>, textBlocks: set<nat>, entries: Entries, id: nat)
    requires id in entries && entries[id].primary == !entries[id].duplicate
    ensures forall after :: after in [RecoveredPass(turns, entries)[id], UnsupersededPass(turns, textBlocks, entries)[id],
                                      NarrationPass(textBlocks, entries)[id]] ==>
              && after.primary == !after.duplicate
              && (!entries[id].duplicate ==> !after.duplicate)
              && Promote(after) == Promote(entries[id])
  {
    hide RecoveredHit, UnsupersededHit, NarrationHit;
  }

  lemma RecoveredAndUnsupersededCommute(turns: seq<Turn>, textBlocks: set<nat>, entries: Entries)
    ensures RecoveredPass(turns, UnsupersededPass(turns, textBlocks, entries)) ==
            UnsupersededPass(turns, textBlocks, RecoveredPass(turns, entries))
  {
    hide RecoveredHit, UnsupersededHit, NarrationHit, SameFacts, Promote;
    PassesKeepFacts(turns, textBlocks, entries);
    HitsIgnoreAnnotation(turns, textBlocks, entries, RecoveredPass(turns, entries));
    HitsIgnoreAnnotation(turns, textBlocks, entries, UnsupersededPass(turns, textBlocks, entries));
  }

  lemma RecoveredAndNarrationCommute(turns: seq<Turn>, textBlocks: set<nat>, entries: Entries)
    ensures RecoveredPass(turns, NarrationPass(textBlocks, entries)) == NarrationPass(textBlocks, RecoveredPass(turns, entries))
  {
    hide RecoveredHit, UnsupersededHit, NarrationHit, SameFacts, Promote;
    PassesKeepFacts(turns, textBlocks, entries);
    HitsIgnoreAnnotation(turns, textBlocks, entries, RecoveredPass(turns, entries));
    HitsIgnoreAnnotation(turns, textBlocks, entries, NarrationPass(textBlocks, entries));
  }

  lemma UnsupersededAndNarrationCommute(turns: seq<Turn>, textBlocks: set<nat>, entries: Entries)
    ensures UnsupersededPass(turns, textBlocks, NarrationPass(textBlocks, entries)) ==
            NarrationPass(textBlocks, UnsupersededPass(turns, textBlocks, entries))
  {
    hide RecoveredHit, UnsupersededHit, NarrationHit, SameFacts, Promote;
    PassesKeepFacts(turns, textBlocks, entries);
    HitsIgnoreAnnotation(turns, textBlocks, entries, UnsupersededPass(turns, textBlocks, entries));
    HitsIgnoreAnnotation(turns, textBlocks, entries, NarrationPass(textBlocks, entries));
  }

  /** The passes can run in any order. */
  lemma PassesCommute(turns: seq<Turn>, textBlocks: set<nat>, entries: Entries)
    ensures RecoveredPass(turns, UnsupersededPass(turns, textBlocks, entries)) ==
            UnsupersededPass(turns, textBlocks, RecoveredPass(turns, entries))
    ensures RecoveredPass(turns, NarrationPass(textBlocks, entries)) == NarrationPass(textBlocks, RecoveredPass(turns, entries))
    ensures UnsupersededPass(turns, textBlocks, NarrationPass(textBlocks, entries)) ==
            NarrationPass(textBlocks, UnsupersededPass(turns, textBlocks, entries))
  {
    hide RecoveredPass, UnsupersededPass, NarrationPass;
    RecoveredAndUnsupersededCommute(turns, textBlocks, entries);
    RecoveredAndNarrationCommute(turns, textBlocks, entries);
    UnsupersededAndNarrationCommute(turns, textBlocks, entries);
  }

  /** Running a pass again changes nothing. */
  lemma PassesIdempotent(turns: seq<Turn>, textBlocks: set<nat>, entries: Entries)
    ensures RecoveredPass(turns, RecoveredPass(turns, entries)) == RecoveredPass(turns, entries)
    ensures UnsupersededPass(turns, textBlocks, UnsupersededPass(turns, textBlocks, entries)) ==
            UnsupersededPass(turns, textBlocks, entries)
    ensures NarrationPass(textBlocks, NarrationPass(textBlocks, entries)) == NarrationPass(textBlocks, entries)
  {
    hide RecoveredPass, UnsupersededPass, NarrationPass;
    RecoveredTwice(turns, textBlocks, entries);
    UnsupersededTwice(turns, textBlocks, entries);
    NarrationTwice(turns, textBlocks, entries);
  }

  lemma RecoveredTwice(turns: seq<Turn>, textBlocks: set<nat>, entries: Entries)
    ensures RecoveredPass(turns, RecoveredPass(turns, entries)) == RecoveredPass(turns, entries)
  {
    hide RecoveredHit, UnsupersededHit, NarrationHit, SameFacts;
    PassesKeepFacts(turns, textBlocks, entries);
    HitsIgnoreAnnotation(turns, textBlocks, entries, RecoveredPass(turns, entries));
  }

  lemma UnsupersededTwice(turns: seq<Turn>, textBlocks: set<nat>, entries: Entries)
    ensures UnsupersededPass(turns, textBlocks, UnsupersededPass(turns, textBlocks, entries)) ==
            UnsupersededPass(turns, textBlocks, entries)
  {
    hide RecoveredHit, UnsupersededHit, NarrationHit, SameFacts;
    PassesKeepFacts(turns, textBlocks, entries);
    HitsIgnoreAnnotation(turns, textBlocks, entries, UnsupersededPass(turns, textBlocks, entries));
  }

  lemma NarrationTwice(turns: seq<Turn>, textBlocks: set<nat>, entries: Entries)
    ensures NarrationPass(textBlocks, NarrationPass(textBlocks, entries)) == NarrationPass(textBlocks, entries)
  {
    hide RecoveredHit, UnsupersededHit, NarrationHit, SameFacts;
    PassesKeepFacts(turns, textBlocks, entries);
    HitsIgnoreAnnotation(turns, textBlocks, entries, NarrationPass(textBlocks, entries));
  }
}
