/** The stored page, its payloads expanded, is the projection of the page built from events - if and only
    if no prose is narration only by a tool call of another turn. */
module PageEquality {
  import opened Options
  import opened Events
  import opened TurnRule
  import opened TurnIndex
  import opened Dedup
  import opened TurnModel
  import opened Visibility
  import opened Composition
  import opened Latest
  import opened Preview
  import opened StoredPage

  /** The entry a reader of stored turns sees for a row: built with its own turn's rows only. */
  function OwnEntry(rows: seq<TurnEvent>, pairs: Pairs, b: TurnEvent): Entry {
    FinalEntry(Keep(rows, {b.turnID}), pairs, b)
  }

  // ---------------------------------------------------------------- entries

  lemma {:induction false} StoredEntriesMembers(all: seq<TurnEvent>, rows: seq<TurnEvent>, pairs: Pairs, e: Entry)
    ensures e in StoredEntries(all, rows, pairs) <==>
            exists b :: b in rows && !FinalEntry(all, pairs, b).duplicate && e == StoredEntry(all, pairs, b)
  {
    hide FinalEntry, StoredEntry;
    if rows != [] {
      var init, last := rows[..|rows| - 1], rows[|rows| - 1];
      assert rows == init + [last];
      StoredEntriesMembers(all, init, pairs, e);
      assert last in rows;
      if exists b :: b in init && !FinalEntry(all, pairs, b).duplicate && e == StoredEntry(all, pairs, b) {
        var b :| b in init && !FinalEntry(all, pairs, b).duplicate && e == StoredEntry(all, pairs, b);
        assert b in rows;
      }
    }
  }

  ghost predicate InWindow(window: seq<Built>, e: Entry) {
    exists i :: 0 <= i < |window| && e in window[i].entries
  }

  /** The stored entry of a row visible in its own turn. */
  ghost predicate StoredFromRow(rows: seq<TurnEvent>, pairs: Pairs, b: TurnEvent, e: Entry) {
    b in rows && !OwnEntry(rows, pairs, b).duplicate && e == StoredEntry(Keep(rows, {b.turnID}), pairs, b)
  }

  lemma WindowEntryOfTurn(rows: seq<TurnEvent>, pairs: Pairs, k: nat, e: Entry)
    requires DistinctIDs(rows) && 1 <= k <= |TurnIDs(rows)|
    ensures e in BuiltTurns(rows, pairs)[k - 1].entries <==>
            exists b: TurnEvent :: b.turnID == TurnIDs(rows)[k - 1] && StoredFromRow(rows, pairs, b, e)
  {
    hide TurnIDs, Keep, FinalEntry, StoredEntry, StoredEntries;
    TurnRowsAreRows(rows, k);
    var events := EventsOfTurn(rows, k);
    StoredEntriesMembers(events, events, pairs, e);
    if b :| b in events && !FinalEntry(events, pairs, b).duplicate && e == StoredEntry(events, pairs, b) {
      assert StoredFromRow(rows, pairs, b, e);
    }
  }

  /** The entries of the whole window: one for each row visible in its own turn. */
  lemma WindowEntries(rows: seq<TurnEvent>, pairs: Pairs, e: Entry)
    requires DistinctIDs(rows)
    ensures InWindow(BuiltTurns(rows, pairs), e) <==> exists b :: StoredFromRow(rows, pairs, b, e)
  {
    hide TurnIDs, Keep, BuiltTurns, StoredFromRow;
    var window := BuiltTurns(rows, pairs);
    if i :| 0 <= i < |window| && e in window[i].entries {
      WindowEntryOfTurn(rows, pairs, i + 1, e);
    }
    if b :| StoredFromRow(rows, pairs, b, e) {
      StoredRowIsRow(rows, pairs, b, e);
      RowInItsTurn(rows, b);
      var k :| 1 <= k <= |TurnIDs(rows)| && TurnIDs(rows)[k - 1] == b.turnID && b in EventsOfTurn(rows, k);
      WindowEntryOfTurn(rows, pairs, k, e);
      assert e in window[k - 1].entries;
    }
  }

  lemma StoredRowIsRow(rows: seq<TurnEvent>, pairs: Pairs, b: TurnEvent, e: Entry)
    requires StoredFromRow(rows, pairs, b, e)
    ensures b in rows
  {
  }

  lemma {:induction false} EntryMapMembers(stored: seq<Entry>)
    ensures forall id :: id in EntryMap(stored) <==> exists e :: e in stored && e.eventID == id
    ensures forall id :: id in EntryMap(stored) ==> EntryMap(stored)[id] in stored && EntryMap(stored)[id].eventID == id
  {
    if stored != [] {
      var init, last := stored[..|stored| - 1], stored[|stored| - 1];
      assert stored == init + [last];
      EntryMapMembers(init);
      assert last in stored;
      forall id | id in EntryMap(init) ensures exists e :: e in stored && e.eventID == id {
        var e :| e in init && e.eventID == id;
        assert e in stored;
      }
    }
  }

  lemma EntryShape(rows: seq<TurnEvent>, pairs: Pairs, b: TurnEvent)
    ensures var e := FinalEntry(rows, pairs, b).(raw := None);
            && e.eventID == b.row.id && FullPayloads(e, b.row)
            && StoredEntry(rows, pairs, b).eventID == b.row.id
            && Expanded(StoredEntry(rows, pairs, b), b.row) == e
  {
    hide PlainEntry, Promoted, Expanded, FullPayloads, Previewed;
    var e := FinalEntry(rows, pairs, b).(raw := None);
    PlainEntryShape(b);
    SamePayloads(PlainEntry(b), e, b.row);
    PreviewThenExpand(e, b.row);
    PreviewKeepsID(e, b.row);
  }

  lemma PlainEntryShape(b: TurnEvent)
    ensures PlainEntry(b).eventID == b.row.id && FullPayloads(PlainEntry(b), b.row)
  {
    hide MessageText, Classify, ToolInputOf, ToolResultOf;
  }

  lemma SamePayloads(e: Entry, f: Entry, row: EventRow)
    requires FullPayloads(e, row)
    requires f == e.(raw := f.raw, groupID := f.groupID, primary := f.primary, duplicate := f.duplicate)
    ensures FullPayloads(f, row)
  {
    hide ToolInputOf, ToolResultOf;
  }

  lemma PreviewKeepsID(e: Entry, row: EventRow)
    ensures Previewed(e, row).eventID == e.eventID
  {
    hide ShortenStrings, Truncated;
  }

  /** A stored page's entries: exactly the rows visible in their own turns, expanding to those turns' entries. */
  lemma StoredPageEntries(rows: seq<TurnEvent>, pairs: Pairs, stored: seq<Entry>)
    requires DistinctIDs(rows) && HoldsEntriesOf(stored, BuiltTurns(rows, pairs))
    ensures EntryMap(stored).Keys <= RowsByID(rows).Keys
    ensures forall b :: b in rows ==>
              && (b.row.id in EntryMap(stored) <==> !OwnEntry(rows, pairs, b).duplicate)
              && (b.row.id in EntryMap(stored) ==>
                    Expanded(EntryMap(stored)[b.row.id], b.row) == OwnEntry(rows, pairs, b).(raw := None))
  {
    hide TurnIDs, Keep, FinalEntry, StoredEntry, BuiltTurns, Expanded;
    EntryMapMembers(stored);
    forall id | id in EntryMap(stored) ensures id in RowsByID(rows) {
      StoredEntryOfRow(rows, pairs, stored, id);
    }
    forall b | b in rows
      ensures b.row.id in EntryMap(stored) <==> !OwnEntry(rows, pairs, b).duplicate
      ensures b.row.id in EntryMap(stored) ==> Expanded(EntryMap(stored)[b.row.id], b.row) == OwnEntry(rows, pairs, b).(raw := None)
    {
      EntryShape(Keep(rows, {b.turnID}), pairs, b);
      if b.row.id in EntryMap(stored) {
        StoredEntryOfRow(rows, pairs, stored, b.row.id);
      }
      if !OwnEntry(rows, pairs, b).duplicate {
        var e := StoredEntry(Keep(rows, {b.turnID}), pairs, b);
        assert StoredFromRow(rows, pairs, b, e);
        WindowEntries(rows, pairs, e);
        assert e in stored;
      }
    }
  }

  /** Only what an event carried can be cut, so a cut entry's event decodes. */
  lemma StoredEntryExpands(rows: seq<TurnEvent>, pairs: Pairs, b: TurnEvent, bodies: map<nat, EventRow>)
    requires b.row.id in bodies && bodies[b.row.id] == b.row
    ensures CanExpand(StoredEntry(rows, pairs, b), b.row.id, bodies)
  {
    hide PlainEntry, Promoted, FullPayloads, Previewed;
    var e := FinalEntry(rows, pairs, b).(raw := None);
    PlainEntryShape(b);
    SamePayloads(PlainEntry(b), e, b.row);
    OnlyPayloadsAreCut(e, b.row);
  }

  lemma OnlyPayloadsAreCut(e: Entry, row: EventRow)
    requires FullPayloads(e, row)
    ensures Previewed(e, row).toolInputTruncated || Previewed(e, row).toolResultTruncated ==> row.body.Some?
  {
    hide ShortenStrings, Truncated, ToolInputOf, ToolResultOf;
  }

  lemma StoredPageExpands(rows: seq<TurnEvent>, pairs: Pairs, stored: seq<Entry>, bodies: map<nat, EventRow>)
    requires DistinctIDs(rows) && HoldsEntriesOf(stored, BuiltTurns(rows, pairs))
    requires forall b :: b in rows ==> b.row.id in bodies && bodies[b.row.id] == b.row
    ensures forall id :: id in EntryMap(stored) ==> CanExpand(EntryMap(stored)[id], id, bodies)
  {
    hide TurnIDs, Keep, FinalEntry, StoredEntry, BuiltTurns, EntryMap, CanExpand, HoldsEntriesOf, DistinctIDs;
    forall id | id in EntryMap(stored) ensures CanExpand(EntryMap(stored)[id], id, bodies) {
      StoredEntryOfRow(rows, pairs, stored, id);
      var b :| b in rows && b.row.id == id && EntryMap(stored)[id] == StoredEntry(Keep(rows, {b.turnID}), pairs, b);
      StoredEntryExpands(Keep(rows, {b.turnID}), pairs, b, bodies);
    }
  }

  lemma StoredEntryOfRow(rows: seq<TurnEvent>, pairs: Pairs, stored: seq<Entry>, id: nat)
    requires DistinctIDs(rows) && HoldsEntriesOf(stored, BuiltTurns(rows, pairs))
    requires id in EntryMap(stored)
    ensures exists b :: b in rows && b.row.id == id && !OwnEntry(rows, pairs, b).duplicate
                        && EntryMap(stored)[id] == StoredEntry(Keep(rows, {b.turnID}), pairs, b)
  {
    hide TurnIDs, Keep, FinalEntry, StoredEntry, BuiltTurns, EntryMap;
    EntryMapMembers(stored);
    var e := EntryMap(stored)[id];
    WindowEntries(rows, pairs, e);
    var b :| StoredFromRow(rows, pairs, b, e);
    EntryShape(Keep(rows, {b.turnID}), pairs, b);
  }

  /** The rebuilt page's entries. */
  lemma RebuiltPageEntries(rows: seq<TurnEvent>, pairs: Pairs)
    requires DistinctIDs(rows)
    ensures var kept := KeptOf(EntriesOf(rows, pairs));
            && kept.Keys <= RowsByID(rows).Keys
            && forall b :: b in rows ==>
                 && (b.row.id in kept <==> !FinalEntry(rows, pairs, b).duplicate)
                 && (b.row.id in kept ==> kept[b.row.id] == FinalEntry(rows, pairs, b).(raw := None))
  {
    hide FinalEntry;
    forall b | b in rows
      ensures b.row.id in KeptOf(EntriesOf(rows, pairs)) <==> !FinalEntry(rows, pairs, b).duplicate
      ensures b.row.id in KeptOf(EntriesOf(rows, pairs)) ==>
                KeptOf(EntriesOf(rows, pairs))[b.row.id] == FinalEntry(rows, pairs, b).(raw := None)
    {
      KeptAt(rows, pairs, b);
    }
  }

  lemma EntriesAgreeIff(rows: seq<TurnEvent>, pairs: Pairs, stored: seq<Entry>)
    requires DistinctIDs(rows) && HoldsEntriesOf(stored, BuiltTurns(rows, pairs))
    requires EntryMap(stored).Keys <= RowsByID(rows).Keys
    ensures FullEntries(EntryMap(stored), rows) == KeptOf(EntriesOf(rows, pairs)) <==> NarrationStaysInTurns(rows, pairs)
  {
    hide Keep, FinalEntry, BuiltTurns, Expanded, EntryMap, KeptOf, EntriesOf, HoldsEntriesOf, NarratesAcrossTurns;
    var full, kept := FullEntries(EntryMap(stored), rows), KeptOf(EntriesOf(rows, pairs));
    StoredPageEntries(rows, pairs, stored);
    RebuiltPageEntries(rows, pairs);
    forall b | b in rows
      ensures OwnEntry(rows, pairs, b) == FinalEntry(rows, pairs, b) <==> !NarratesAcrossTurns(rows, pairs, b)
      ensures NarratesAcrossTurns(rows, pairs, b) ==> OwnEntry(rows, pairs, b).duplicate && !FinalEntry(rows, pairs, b).duplicate
    {
      TurnEntryIsPageEntryIff(rows, pairs, b);
    }
    if NarrationStaysInTurns(rows, pairs) {
      SameByRow(rows, full, kept);
    } else {
      var b :| b in rows && NarratesAcrossTurns(rows, pairs, b);
      assert b.row.id in kept && b.row.id !in full;
    }
  }

  lemma SameByRow(rows: seq<TurnEvent>, a: map<nat, Entry>, b: map<nat, Entry>)
    requires DistinctIDs(rows) && a.Keys <= RowsByID(rows).Keys && b.Keys <= RowsByID(rows).Keys
    requires forall r :: r in rows ==> (r.row.id in a <==> r.row.id in b) && (r.row.id in a ==> a[r.row.id] == b[r.row.id])
    ensures a == b
  {
    forall id | id in a ensures id in b && a[id] == b[id] {
      var r :| r in rows && r.row.id == id;
    }
    forall id | id in b ensures id in a {
      var r :| r in rows && r.row.id == id;
    }
  }

  // ---------------------------------------------------------------- turns

  lemma TurnsAgree(rows: seq<TurnEvent>, pairs: Pairs)
    requires DistinctIDs(rows) && NarrationStaysInTurns(rows, pairs)
    ensures TurnsIn(BuiltTurns(rows, pairs)) == Pruned(TurnListOf(rows), KeptOf(EntriesOf(rows, pairs)))
  {
    hide TurnIDs, Keep, FinalEntry, KeptOf, EntriesOf, PrunedIDs, EventsOfTurn;
    var kept := KeptOf(EntriesOf(rows, pairs));
    forall i | 0 <= i < |TurnIDs(rows)|
      ensures TurnsIn(BuiltTurns(rows, pairs))[i] == Pruned(TurnListOf(rows), kept)[i]
    {
      TurnAgrees(rows, pairs, i + 1);
    }
  }

  lemma TurnAgrees(rows: seq<TurnEvent>, pairs: Pairs, k: nat)
    requires DistinctIDs(rows) && NarrationStaysInTurns(rows, pairs) && 1 <= k <= |TurnIDs(rows)|
    ensures DistinctIDs(EventsOfTurn(rows, k))
    ensures var events := EventsOfTurn(rows, k);
            PrunedIDs(IDsOf(events), KeptOf(EntriesOf(events, pairs))) == PrunedIDs(IDsOf(events), KeptOf(EntriesOf(rows, pairs)))
  {
    hide TurnIDs, Keep, FinalEntry, KeptOf, EntriesOf, EventsOfTurn, PrunedIDs, NarratesAcrossTurns;
    var events := EventsOfTurn(rows, k);
    TurnRowsAreRows(rows, k);
    TurnRowsDistinct(rows, TurnIDs(rows)[k - 1]);
    IDsOfMembers(events);
    var own, kept := KeptOf(EntriesOf(events, pairs)), KeptOf(EntriesOf(rows, pairs));
    forall x | x in IDsOf(events) ensures x in own <==> x in kept {
      var b :| b in events && b.row.id == x;
      KeptAt(events, pairs, b);
      KeptAt(rows, pairs, b);
      TurnEntryIsPageEntryIff(rows, pairs, b);
    }
    PrunedFollows(IDsOf(events), own, kept);
  }

  // ---------------------------------------------------------------- source groups

  lemma GroupAt(rows: seq<TurnEvent>, pairs: Pairs, g: nat)
    requires DistinctIDs(rows)
    ensures g in GroupsOf(EntriesOf(rows, pairs)) <==> exists b :: b in rows && EntryOf(b, pairs).groupID == Some(g)
  {
    hide EntryOf, Promoted;
    if b :| b in rows && EntryOf(b, pairs).groupID == Some(g) {
      EntryAt(rows, pairs, b);
    }
    if g in GroupsOf(EntriesOf(rows, pairs)) {
      var id :| id in EntriesOf(rows, pairs) && EntriesOf(rows, pairs)[id].groupID == Some(g);
      var b :| b in rows && b.row.id == id;
      EntryAt(rows, pairs, b);
    }
  }

  lemma {:induction false} UnionAt(window: seq<Built>, g: nat)
    requires forall i, h :: 0 <= i < |window| && h in window[i].groups ==> window[i].groups[h] == [Harness, OTel]
    ensures g in UnionGroups(window) <==> exists i :: 0 <= i < |window| && g in window[i].groups
    ensures g in UnionGroups(window) ==> UnionGroups(window)[g] == [Harness, OTel]
  {
    if window != [] {
      var init, last := window[..|window| - 1], window[|window| - 1];
      assert forall i :: 0 <= i < |init| ==> init[i] == window[i];
      UnionAt(init, g);
      if g in last.groups {
        assert g in window[|window| - 1].groups;
      }
    }
  }

  lemma GroupsAgree(rows: seq<TurnEvent>, pairs: Pairs)
    requires DistinctIDs(rows)
    ensures UnionGroups(BuiltTurns(rows, pairs)) == GroupsOf(EntriesOf(rows, pairs))
  {
    hide TurnIDs, Keep, EntryOf, EntriesOf, UnionGroups, EventsOfTurn;
    var window := BuiltTurns(rows, pairs);
    forall g ensures g in UnionGroups(window) <==> g in GroupsOf(EntriesOf(rows, pairs))
             ensures g in UnionGroups(window) ==> UnionGroups(window)[g] == [Harness, OTel]
    {
      UnionAt(window, g);
      WindowGroup(rows, pairs, g);
    }
  }

  /** The groups of one stored turn are those of its rows. */
  lemma TurnGroup(rows: seq<TurnEvent>, pairs: Pairs, k: nat, g: nat)
    requires DistinctIDs(rows) && 1 <= k <= |TurnIDs(rows)|
    ensures g in BuiltTurns(rows, pairs)[k - 1].groups <==>
            exists b :: b in rows && b.turnID == TurnIDs(rows)[k - 1] && EntryOf(b, pairs).groupID == Some(g)
  {
    hide TurnIDs, Keep, EntryOf, EntriesOf, EventsOfTurn, GroupsOf, SourcesOf, StoredEntries;
    TurnRowsAreRows(rows, k);
    TurnRowsDistinct(rows, TurnIDs(rows)[k - 1]);
    GroupAt(EventsOfTurn(rows, k), pairs, g);
  }

  lemma WindowGroup(rows: seq<TurnEvent>, pairs: Pairs, g: nat)
    requires DistinctIDs(rows)
    ensures var window := BuiltTurns(rows, pairs);
            (exists i :: 0 <= i < |window| && g in window[i].groups) <==> g in GroupsOf(EntriesOf(rows, pairs))
  {
    hide TurnIDs, Keep, EntryOf, EntriesOf, EventsOfTurn, GroupsOf, BuiltTurns;
    var window := BuiltTurns(rows, pairs);
    GroupAt(rows, pairs, g);
    if i :| 0 <= i < |window| && g in window[i].groups {
      TurnGroup(rows, pairs, i + 1, g);
    }
    if b :| b in rows && EntryOf(b, pairs).groupID == Some(g) {
      RowInItsTurn(rows, b);
      var k :| 1 <= k <= |TurnIDs(rows)| && TurnIDs(rows)[k - 1] == b.turnID && b in EventsOfTurn(rows, k);
      TurnGroup(rows, pairs, k, g);
      assert g in window[k - 1].groups;
    }
  }

  // ---------------------------------------------------------------- the page

  lemma SourcesAgree(rows: seq<TurnEvent>, pairs: Pairs)
    requires Rising(rows) && DistinctIDs(rows)
    ensures MergeAll(SourcesIn(BuiltTurns(rows, pairs))) == SourcesOf(rows)
  {
    hide TurnIDs, Keep, EntriesOf, EventsOfTurn, SourcesOf, MergeAll;
    assert SourcesIn(BuiltTurns(rows, pairs)) == TurnSources(rows, |TurnIDs(rows)|);
    MergedSourcesAreThePages(rows);
  }

  /** For every page of rows in event order: assembling the stored turns and expanding their payloads gives
      exactly the projection of the builder run over the rows - turns, entries, source groups and
      aggregates - if and only if narration stays in its turn. */
  lemma StoredPageIsRebuiltPageIff(rows: seq<TurnEvent>, pairs: Pairs, stored: seq<Entry>, more: bool)
    requires Rising(rows) && DistinctIDs(rows)
    requires HoldsEntriesOf(stored, BuiltTurns(rows, pairs))
    ensures EntryMap(stored).Keys <= RowsByID(rows).Keys
    ensures FullPage(Assembled(BuiltTurns(rows, pairs), stored, more), rows) == Projected(ModelOf(rows, pairs, more)) <==>
            NarrationStaysInTurns(rows, pairs)
  {
    hide Rising, DistinctIDs, TurnIDs, Keep, EntriesOf, EntryMap, BuiltTurns, KeptOf, GroupsOf, TurnListOf, SourcesOf, MergeAll;
    hide UnionGroups, TurnsIn, SourcesIn, NarrationStaysInTurns, HoldsEntriesOf, Pruned, FullEntries, RowsByID;
    StoredPageEntries(rows, pairs, stored);
    EntriesAgreeIff(rows, pairs, stored);
    GroupsAgree(rows, pairs);
    SourcesAgree(rows, pairs);
    if NarrationStaysInTurns(rows, pairs) {
      TurnsAgree(rows, pairs);
    }
  }
}
