/** The builder's loops: grouping, the three passes changing the entry map in place, and the whole build. */
module Builder {
  import opened Options
  import opened Events
  import opened TurnRule
  import opened TurnIndex
  import opened Dedup
  import opened TurnModel
  import opened Passes
  import opened Visibility
  import opened Grouping

  /** The entry map the passes share and change in place. */
  class EntryTable {
    var entries: Entries

    constructor ()
      ensures entries == map[]
    {
      entries := map[];
    }

    method Reveal(id: nat)
      requires id in entries
      modifies this
      ensures entries == old(entries)[id := Promote(old(entries)[id])]
    {
      var e := entries[id];
      e := e.(primary := true);
      e := e.(duplicate := false);
      entries := entries[id := e];
    }
  }

  // ---------------------------------------------------------------- the passes

  /** Entries with some of them promoted. */
  function PromoteAll(entries: Entries, hits: set<nat>): Entries {
    map id | id in entries :: if id in hits then Promote(entries[id]) else entries[id]
  }

  lemma PromoteOneMore(entries: Entries, hits: set<nat>, id: nat)
    requires id in entries
    ensures var now := PromoteAll(entries, hits);
            now[id := Promote(now[id])] == PromoteAll(entries, hits + {id})
  {
  }

  lemma PromoteAllKeepsFacts(entries: Entries, hits: set<nat>)
    ensures SameFacts(entries, PromoteAll(entries, hits))
    ensures forall t :: TurnRecoveredSuperseded(t, PromoteAll(entries, hits)) == TurnRecoveredSuperseded(t, entries)
    ensures forall id :: id in entries ==> IsRecoveredOrOTelAssistantText(PromoteAll(entries, hits)[id]) ==
                                           IsRecoveredOrOTelAssistantText(entries[id])
    ensures forall id :: id in entries ==> SupersedesRecovered(PromoteAll(entries, hits)[id]) == SupersedesRecovered(entries[id])
    ensures forall id :: id in entries ==> SupersedesBlocks(PromoteAll(entries, hits)[id]) == SupersedesBlocks(entries[id])
    ensures forall id :: id in entries ==> PromoteAll(entries, hits)[id].text == entries[id].text
    ensures forall id :: id in entries ==> PromoteAll(entries, hits)[id].kind == entries[id].kind
    ensures forall id :: id in entries ==> PromoteAll(entries, hits)[id].messageID == entries[id].messageID
  {
    var now := PromoteAll(entries, hits);
    hide IsRecoveredOrOTelAssistantText, SupersedesRecovered, SupersedesBlocks;
    forall id | id in entries
      ensures IsRecoveredOrOTelAssistantText(now[id]) == IsRecoveredOrOTelAssistantText(entries[id])
      ensures SupersedesRecovered(now[id]) == SupersedesRecovered(entries[id])
      ensures SupersedesBlocks(now[id]) == SupersedesBlocks(entries[id])
      ensures now[id].text == entries[id].text && now[id].kind == entries[id].kind && now[id].messageID == entries[id].messageID
    {
      SameEntryFacts(entries[id], now[id]);
    }
  }

  /** Every turn lists entries the table holds. */
  ghost predicate Listed(turns: seq<Turn>, entries: Entries) {
    forall t, x :: t in turns && x in t.entryIDs ==> x in entries
  }

  // ---- surfaceRecoveredBlocks

  function RecoveredAmong(ids: seq<nat>, entries: Entries): set<nat> {
    set x | x in ids && x in entries && IsRecoveredOrOTelAssistantText(entries[x])
  }

  predicate SupersededAmong(ids: seq<nat>, entries: Entries) {
    exists x :: x in ids && x in entries && !IsRecoveredOrOTelAssistantText(entries[x]) && SupersedesRecovered(entries[x])
  }

  function RecoveredHits(turns: seq<Turn>, entries: Entries): set<nat> {
    set id | id in entries && RecoveredHit(turns, entries, id)
  }

  lemma RecoveredHitsSnoc(turns: seq<Turn>, t: Turn, entries: Entries)
    ensures RecoveredHits(turns + [t], entries) ==
            RecoveredHits(turns, entries) + if SupersededAmong(t.entryIDs, entries) then {} else RecoveredAmong(t.entryIDs, entries)
  {
    hide IsRecoveredOrOTelAssistantText, SupersedesRecovered;
    assert forall u :: u in turns + [t] <==> u in turns || u == t;
    assert TurnRecoveredSuperseded(t, entries) == SupersededAmong(t.entryIDs, entries);
    forall id | id in entries
      ensures RecoveredHit(turns + [t], entries, id) <==>
              RecoveredHit(turns, entries, id) ||
              (id in RecoveredAmong(t.entryIDs, entries) && !SupersededAmong(t.entryIDs, entries))
    {
    }
  }

  lemma AmongSnoc(ids: seq<nat>, j: nat, entries: Entries)
    requires j < |ids| && ids[j] in entries
    ensures RecoveredAmong(ids[..j + 1], entries) ==
            RecoveredAmong(ids[..j], entries) + if IsRecoveredOrOTelAssistantText(entries[ids[j]]) then {ids[j]} else {}
    ensures SupersededAmong(ids[..j + 1], entries) <==>
            SupersededAmong(ids[..j], entries) ||
            (!IsRecoveredOrOTelAssistantText(entries[ids[j]]) && SupersedesRecovered(entries[ids[j]]))
  {
    hide IsRecoveredOrOTelAssistantText, SupersedesRecovered;
    assert ids[..j + 1] == ids[..j] + [ids[j]];
    assert forall x :: x in ids[..j + 1] <==> x in ids[..j] || x == ids[j];
  }

  /** The first half of one turn of the pass: is there a candidate, and does anything supersede it? */
  method ScanRecovered(turn: Turn, table: EntryTable, ghost before: Entries, ghost hits: set<nat>)
    returns (hasCandidate: bool, superseded: bool)
    requires table.entries == PromoteAll(before, hits)
    requires forall x :: x in turn.entryIDs ==> x in before
    ensures hasCandidate <==> RecoveredAmong(turn.entryIDs, before) != {}
    ensures superseded <==> SupersededAmong(turn.entryIDs, before)
  {
    hide IsRecoveredOrOTelAssistantText, SupersedesRecovered, SupersedesBlocks, PromoteAll;
    hasCandidate, superseded := false, false;
    PromoteAllKeepsFacts(before, hits);
    var ids := turn.entryIDs;
    for j := 0 to |ids|
      invariant hasCandidate <==> RecoveredAmong(ids[..j], before) != {}
      invariant superseded <==> SupersededAmong(ids[..j], before)
    {
      AmongSnoc(ids, j, before);
      var e := table.entries[ids[j]];
      if IsRecoveredOrOTelAssistantText(e) {
        hasCandidate := true;
        continue;
      }
      if SupersedesRecovered(e) {
        superseded := true;
      }
    }
    assert ids[..|ids|] == ids;
  }

  /** The second half: promote the turn's candidates. */
  method PromoteRecovered(turn: Turn, table: EntryTable, ghost before: Entries, ghost hits: set<nat>)
    requires table.entries == PromoteAll(before, hits)
    requires forall x :: x in turn.entryIDs ==> x in before
    modifies table
    ensures table.entries == PromoteAll(before, hits + RecoveredAmong(turn.entryIDs, before))
  {
    hide IsRecoveredOrOTelAssistantText, SupersedesRecovered, SupersedesBlocks;
    var ids := turn.entryIDs;
    ghost var now := hits;
    assert now == hits + RecoveredAmong(ids[..0], before);
    for j := 0 to |ids|
      invariant now == hits + RecoveredAmong(ids[..j], before)
      invariant table.entries == PromoteAll(before, now)
    {
      AmongSnoc(ids, j, before);
      PromoteAllKeepsFacts(before, now);
      if !IsRecoveredOrOTelAssistantText(table.entries[ids[j]]) {
        continue;
      }
      PromoteOneMore(before, now, ids[j]);
      table.Reveal(ids[j]);
      now := now + {ids[j]};
    }
    assert ids[..|ids|] == ids;
  }

  /** surfaceRecoveredBlocks. */
  method SurfaceRecoveredBlocks(turns: seq<Turn>, table: EntryTable)
    requires Listed(turns, table.entries)
    modifies table
    ensures table.entries == RecoveredPass(turns, old(table.entries))
  {
    hide RecoveredAmong, SupersededAmong;
    ghost var before := table.entries;
    ghost var hits: set<nat> := RecoveredHits(turns[..0], before);
    assert hits == {};
    for i := 0 to |turns|
      invariant hits == RecoveredHits(turns[..i], before)
      invariant table.entries == PromoteAll(before, hits)
    {
      var turn := turns[i];
      RecoveredHitsSnoc(turns[..i], turn, before);
      assert turns[..i + 1] == turns[..i] + [turn];
      var hasCandidate, superseded := ScanRecovered(turn, table, before, hits);
      if hasCandidate && !superseded {
        PromoteRecovered(turn, table, before, hits);
      }
      hits := RecoveredHits(turns[..i + 1], before);
    }
    assert turns[..|turns|] == turns;
  }

  // ---- surfaceUnsupersededBlocks

  function ProseAmong(ids: seq<nat>, entries: Entries, textBlocks: set<nat>): set<nat> {
    set x | x in ids && IsCandidateBlock(entries, textBlocks, x)
  }

  predicate BlocksSupersededAmong(ids: seq<nat>, entries: Entries, textBlocks: set<nat>) {
    exists x :: x in ids && x in entries && !IsCandidateBlock(entries, textBlocks, x) && SupersedesBlocks(entries[x])
  }

  function UnsupersededHits(turns: seq<Turn>, entries: Entries, textBlocks: set<nat>): set<nat> {
    set id | id in entries && UnsupersededHit(turns, entries, textBlocks, id)
  }

  lemma UnsupersededHitsSnoc(turns: seq<Turn>, t: Turn, entries: Entries, textBlocks: set<nat>)
    ensures UnsupersededHits(turns + [t], entries, textBlocks) ==
            UnsupersededHits(turns, entries, textBlocks) +
            if BlocksSupersededAmong(t.entryIDs, entries, textBlocks) then {} else ProseAmong(t.entryIDs, entries, textBlocks)
  {
    hide IsRecoveredOrOTelAssistantText, SupersedesBlocks;
    assert forall u :: u in turns + [t] <==> u in turns || u == t;
    assert TurnBlocksSuperseded(t, entries, textBlocks) == BlocksSupersededAmong(t.entryIDs, entries, textBlocks);
    forall id | id in entries
      ensures UnsupersededHit(turns + [t], entries, textBlocks, id) <==>
              UnsupersededHit(turns, entries, textBlocks, id) ||
              (id in ProseAmong(t.entryIDs, entries, textBlocks) && !BlocksSupersededAmong(t.entryIDs, entries, textBlocks))
    {
    }
  }

  lemma ProseAmongSnoc(ids: seq<nat>, j: nat, entries: Entries, textBlocks: set<nat>)
    requires j < |ids| && ids[j] in entries
    ensures ProseAmong(ids[..j + 1], entries, textBlocks) ==
            ProseAmong(ids[..j], entries, textBlocks) + if IsCandidateBlock(entries, textBlocks, ids[j]) then {ids[j]} else {}
    ensures BlocksSupersededAmong(ids[..j + 1], entries, textBlocks) <==>
            BlocksSupersededAmong(ids[..j], entries, textBlocks) ||
            (!IsCandidateBlock(entries, textBlocks, ids[j]) && SupersedesBlocks(entries[ids[j]]))
  {
    hide IsCandidateBlock, SupersedesBlocks;
    assert ids[..j + 1] == ids[..j] + [ids[j]];
    assert forall x :: x in ids[..j + 1] <==> x in ids[..j] || x == ids[j];
  }

  /** The ids of a list, as a set. */
  function IDSet(ids: seq<nat>): set<nat> {
    set x | x in ids
  }

  /** The first half of one turn of the pass: its candidates, and whether a result supersedes them. */
  method ScanBlocks(turn: Turn, table: EntryTable, textBlocks: set<nat>, ghost before: Entries, ghost hits: set<nat>)
    returns (candidates: seq<nat>, superseded: bool)
    requires table.entries == PromoteAll(before, hits)
    requires forall x :: x in turn.entryIDs ==> x in before
    ensures IDSet(candidates) == ProseAmong(turn.entryIDs, before, textBlocks)
    ensures superseded <==> BlocksSupersededAmong(turn.entryIDs, before, textBlocks)
  {
    hide IsRecoveredOrOTelAssistantText, SupersedesRecovered, SupersedesBlocks, PromoteAll;
    candidates, superseded := [], false;
    PromoteAllKeepsFacts(before, hits);
    var ids := turn.entryIDs;
    for j := 0 to |ids|
      invariant IDSet(candidates) == ProseAmong(ids[..j], before, textBlocks)
      invariant superseded <==> BlocksSupersededAmong(ids[..j], before, textBlocks)
    {
      ProseAmongSnoc(ids, j, before, textBlocks);
      var e := table.entries[ids[j]];
      if ids[j] in textBlocks && e.text != "" && !IsRecoveredOrOTelAssistantText(e) {
        candidates := candidates + [ids[j]];
        continue;
      }
      if SupersedesBlocks(e) {
        superseded := true;
      }
    }
    assert ids[..|ids|] == ids;
  }

  /** The second half: promote the candidates. */
  method PromoteBlocks(candidates: seq<nat>, table: EntryTable, ghost before: Entries, ghost hits: set<nat>)
    requires table.entries == PromoteAll(before, hits)
    requires forall x :: x in candidates ==> x in before
    modifies table
    ensures table.entries == PromoteAll(before, hits + IDSet(candidates))
  {
    ghost var now := hits;
    assert now == hits + IDSet(candidates[..0]);
    for j := 0 to |candidates|
      invariant now == hits + IDSet(candidates[..j])
      invariant table.entries == PromoteAll(before, now)
    {
      PromoteOneMore(before, now, candidates[j]);
      table.Reveal(candidates[j]);
      now := now + {candidates[j]};
      assert candidates[..j + 1] == candidates[..j] + [candidates[j]];
    }
    assert candidates[..|candidates|] == candidates;
  }

  /** surfaceUnsupersededBlocks. */
  method SurfaceUnsupersededBlocks(turns: seq<Turn>, table: EntryTable, textBlocks: set<nat>)
    requires Listed(turns, table.entries)
    modifies table
    ensures table.entries == UnsupersededPass(turns, textBlocks, old(table.entries))
  {
    hide BlocksSupersededAmong, IsCandidateBlock, UnsupersededHit;
    ghost var before := table.entries;
    ghost var hits: set<nat> := UnsupersededHits(turns[..0], before, textBlocks);
    NoTurnsNoHits(before, textBlocks);
    for i := 0 to |turns|
      invariant hits == UnsupersededHits(turns[..i], before, textBlocks)
      invariant table.entries == PromoteAll(before, hits)
    {
      var turn := turns[i];
      UnsupersededHitsSnoc(turns[..i], turn, before, textBlocks);
      assert turns[..i + 1] == turns[..i] + [turn];
      var candidates, superseded := ScanBlocks(turn, table, textBlocks, before, hits);
      if !superseded {
        assert forall x :: x in candidates ==> x in IDSet(candidates);
        PromoteBlocks(candidates, table, before, hits);
      }
      hits := UnsupersededHits(turns[..i + 1], before, textBlocks);
    }
    assert turns[..|turns|] == turns;
  }

  lemma NoTurnsNoHits(entries: Entries, textBlocks: set<nat>)
    ensures UnsupersededHits([], entries, textBlocks) == {}
  {
  }

  // ---- surfaceNarrationBlocks

  /** The messages that carry a tool call. */
  function TooledMessages(entries: Entries): set<string> {
    set x | x in entries && entries[x].kind == ToolCallKind && entries[x].messageID != "" :: entries[x].messageID
  }

  function TooledAmong(ids: set<nat>, entries: Entries): set<string> {
    set x | x in ids && x in entries && entries[x].kind == ToolCallKind && entries[x].messageID != "" :: entries[x].messageID
  }

  method CollectTooledMessages(table: EntryTable) returns (tooled: set<string>)
    ensures tooled == TooledMessages(table.entries)
  {
    tooled := {};
    var left := table.entries.Keys;
    while left != {}
      invariant left <= table.entries.Keys
      invariant tooled == TooledAmong(table.entries.Keys - left, table.entries)
      decreases left
    {
      var x :| x in left;
      var e := table.entries[x];
      ghost var seen := table.entries.Keys - left;
      assert TooledAmong(seen + {x}, table.entries) ==
             TooledAmong(seen, table.entries) + if e.kind == ToolCallKind && e.messageID != "" then {e.messageID} else {};
      if e.kind == ToolCallKind && e.messageID != "" {
        tooled := tooled + {e.messageID};
      }
      left := left - {x};
      assert table.entries.Keys - left == seen + {x};
    }
    assert table.entries.Keys - left == table.entries.Keys;
  }

  function NarrationAmong(ids: set<nat>, entries: Entries, textBlocks: set<nat>): set<nat> {
    set x | x in ids && NarrationHit(entries, textBlocks, x)
  }

  /** surfaceNarrationBlocks. */
  method SurfaceNarrationBlocks(table: EntryTable, textBlocks: set<nat>)
    requires textBlocks <= table.entries.Keys
    modifies table
    ensures table.entries == NarrationPass(textBlocks, old(table.entries))
  {
    hide IsRecoveredOrOTelAssistantText, SupersedesRecovered, SupersedesBlocks;
    ghost var before := table.entries;
    var tooled := CollectTooledMessages(table);
    if |tooled| == 0 {
      NothingTooled(before, textBlocks);
      return;
    }
    ghost var hits: set<nat> := {};
    var left := textBlocks;
    while left != {}
      invariant left <= textBlocks
      invariant hits == NarrationAmong(textBlocks - left, before, textBlocks)
      invariant table.entries == PromoteAll(before, hits)
      decreases left
    {
      var eid :| eid in left;
      var e := table.entries[eid];
      NarrationStep(before, hits, textBlocks, left, eid);
      left := left - {eid};
      if e.text == "" || e.messageID == "" || e.messageID !in tooled {
        continue;
      }
      if IsRecoveredOrOTelAssistantText(e) {
        continue;
      }
      PromoteOneMore(before, hits, eid);
      table.Reveal(eid);
      hits := hits + {eid};
    }
    AllNarration(before, textBlocks);
  }

  lemma NothingTooled(entries: Entries, textBlocks: set<nat>)
    requires TooledMessages(entries) == {}
    ensures NarrationPass(textBlocks, entries) == entries
  {
    forall m ensures !MessageTooled(entries, m) {
      TooledIsMember(entries, m);
    }
  }

  lemma NarrationStep(before: Entries, hits: set<nat>, textBlocks: set<nat>, left: set<nat>, eid: nat)
    requires textBlocks <= before.Keys && left <= textBlocks && eid in left
    ensures var e := PromoteAll(before, hits)[eid];
            NarrationAmong(textBlocks - (left - {eid}), before, textBlocks) ==
            NarrationAmong(textBlocks - left, before, textBlocks) +
            if e.text != "" && e.messageID != "" && e.messageID in TooledMessages(before) && !IsRecoveredOrOTelAssistantText(e)
            then {eid} else {}
  {
    hide IsRecoveredOrOTelAssistantText, SupersedesRecovered, SupersedesBlocks;
    PromoteAllKeepsFacts(before, hits);
    assert textBlocks - (left - {eid}) == (textBlocks - left) + {eid};
    TooledIsMember(before, before[eid].messageID);
  }

  lemma TooledIsMember(entries: Entries, m: string)
    ensures MessageTooled(entries, m) <==> m != "" && m in TooledMessages(entries)
  {
  }

  lemma AllNarration(entries: Entries, textBlocks: set<nat>)
    requires textBlocks <= entries.Keys
    ensures PromoteAll(entries, NarrationAmong(textBlocks - {}, entries, textBlocks)) == NarrationPass(textBlocks, entries)
  {
    hide MessageTooled, IsRecoveredOrOTelAssistantText;
    assert textBlocks - {} == textBlocks;
  }
}
