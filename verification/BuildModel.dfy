/** buildTurns and the whole build: the loops over rows, against the closed form of TurnModel. */
module BuildModel {
  import opened Options
  import opened Decimals
  import opened Events
  import opened TurnRule
  import opened IndexRules
  import opened TurnIndex
  import opened Dedup
  import opened TurnModel
  import opened Passes
  import opened Visibility
  import opened Grouping
  import opened Builder

  /** Rows come from a table keyed by id. */
  ghost predicate PositionsDistinct(rows: seq<TurnEvent>) {
    && (forall i :: 0 <= i < |rows| ==> 0 < rows[i].row.id)
    && (forall i, j :: 0 <= i < j < |rows| ==> rows[i].row.id != rows[j].row.id)
  }

  lemma DistinctPositionsDistinctIDs(rows: seq<TurnEvent>)
    requires PositionsDistinct(rows)
    ensures DistinctIDs(rows)
  {
    forall b, c | b in rows && c in rows && b.row.id == c.row.id ensures b == c {
      var i :| 0 <= i < |rows| && rows[i] == b;
      var j :| 0 <= j < |rows| && rows[j] == c;
      assert i == j;
    }
  }

  /** A row with the turn id the builder starts from. */
  function Given(b: TurnEvent): TurnEvent {
    TurnEvent(GivenTurnID(b), b.row)
  }

  lemma EntryFollowsTurnID(row: EventRow, id: string, id': string, pairs: Pairs)
    ensures EntryOf(TurnEvent(id', row), pairs) == EntryOf(TurnEvent(id, row), pairs).(turnID := id')
  {
  }

  lemma {:induction false} SettledRows(rows: seq<TurnEvent>, i: nat)
    requires i < |rows|
    ensures Settled(rows)[i] == TurnEvent(LastSettled(rows[..i + 1]), rows[i].row)
    ensures LastSettled(rows[..i + 1]) == Resolve(LastSettled(rows[..i]), rows[i].row.id, GivenTurnID(rows[i]))
  {
    hide Settled, LastSettled, Resolve, GivenTurnID;
    SettledPrefix(rows, i + 1);
    assert rows[..i + 1] == rows[..i] + [rows[i]];
    SettledSnoc(rows[..i], rows[i]);
  }

  lemma SettledDistinct(rows: seq<TurnEvent>)
    requires PositionsDistinct(rows)
    ensures PositionsDistinct(Settled(rows))
    ensures DistinctIDs(Settled(rows))
  {
    forall i | 0 <= i < |rows| ensures Settled(rows)[i].row == rows[i].row {
      SettledRows(rows, i);
    }
    DistinctPositionsDistinctIDs(Settled(rows));
  }

  lemma {:induction false} IDsOfAt(rows: seq<TurnEvent>)
    ensures |IDsOf(rows)| == |rows|
    ensures forall i :: 0 <= i < |rows| ==> IDsOf(rows)[i] == rows[i].row.id
  {
    if rows != [] {
      IDsOfAt(rows[..|rows| - 1]);
    }
  }

  /** The entry table while buildTurns is at row i: settled turn ids before it, given ones from it on. */
  ghost predicate Settling(table: Entries, rows: seq<TurnEvent>, pairs: Pairs, i: nat) {
    && (forall x :: x in table <==> exists b :: b in rows && b.row.id == x)
    && (forall j :: 0 <= j < |rows| ==>
          && rows[j].row.id in table
          && table[rows[j].row.id] == Wanted(rows, pairs, i, j))
  }

  function Wanted(rows: seq<TurnEvent>, pairs: Pairs, i: nat, j: nat): Entry
    requires j < |rows|
  {
    EntryOf(if j < i then Settled(rows)[j] else Given(rows[j]), pairs)
  }

  lemma WantedNext(rows: seq<TurnEvent>, pairs: Pairs, i: nat)
    requires i < |rows|
    ensures Wanted(rows, pairs, i + 1, i) == Wanted(rows, pairs, i, i).(turnID := Settled(rows)[i].turnID)
    ensures forall j :: 0 <= j < |rows| && j != i ==> Wanted(rows, pairs, i + 1, j) == Wanted(rows, pairs, i, j)
  {
    hide EntryOf, Settled, LastSettled, Resolve, GivenTurnID;
    SettledRows(rows, i);
    EntryFollowsTurnID(rows[i].row, Given(rows[i]).turnID, Settled(rows)[i].turnID, pairs);
  }

  lemma SettleOne(table: Entries, rows: seq<TurnEvent>, pairs: Pairs, i: nat)
    requires PositionsDistinct(rows) && i < |rows| && Settling(table, rows, pairs, i)
    ensures var id := rows[i].row.id;
            Settling(table[id := table[id].(turnID := Settled(rows)[i].turnID)], rows, pairs, i + 1)
  {
    hide Wanted, Settled;
    WantedNext(rows, pairs, i);
    assert rows[i] in rows;
  }

  lemma AllSettled(table: Entries, rows: seq<TurnEvent>, pairs: Pairs)
    requires PositionsDistinct(rows) && Settling(table, rows, pairs, |rows|)
    requires DistinctIDs(Settled(rows))
    ensures table == FirstPass(Settled(rows), pairs)
  {
    hide EntryOf, Settled, Given;
    forall i | 0 <= i < |rows| ensures Settled(rows)[i].row == rows[i].row {
      SettledRows(rows, i);
    }
    SameRowsSameTable(table, rows, Settled(rows), pairs);
  }

  lemma SameRowsSameTable(table: Entries, rows: seq<TurnEvent>, settled: seq<TurnEvent>, pairs: Pairs)
    requires |settled| == |rows| && DistinctIDs(settled)
    requires forall i :: 0 <= i < |rows| ==> settled[i].row == rows[i].row
    requires forall x :: x in table <==> exists b :: b in rows && b.row.id == x
    requires forall j :: 0 <= j < |rows| ==> rows[j].row.id in table && table[rows[j].row.id] == EntryOf(settled[j], pairs)
    ensures table == FirstPass(settled, pairs)
  {
    hide FirstPass, DistinctIDs, EntryOf;
    FirstPassKeys(settled, pairs);
    forall x | x in table ensures x in FirstPass(settled, pairs) && FirstPass(settled, pairs)[x] == table[x] {
      var b :| b in rows && b.row.id == x;
      var i :| 0 <= i < |rows| && rows[i] == b;
      FirstPassAt(settled, pairs, settled[i]);
    }
    forall x | x in FirstPass(settled, pairs) ensures x in table {
      var b :| b in settled && b.row.id == x;
      var i :| 0 <= i < |rows| && settled[i] == b;
      assert rows[i] in rows;
    }
  }

  lemma FirstPassKeys(rows: seq<TurnEvent>, pairs: Pairs)
    requires DistinctIDs(rows)
    ensures forall x :: x in FirstPass(rows, pairs) ==> exists b :: b in rows && b.row.id == x
  {
    hide EntryOf;
  }

  ghost predicate IndexedBy(index: map<string, nat>, ids: seq<string>) {
    && (forall id :: id in index <==> id in ids)
    && (forall id :: id in index ==> index[id] + 1 == SeqOf(ids, id))
  }

  lemma IndexNewTurn(index: map<string, nat>, rows: seq<TurnEvent>, b: TurnEvent)
    requires IndexedBy(index, TurnIDs(rows)) && b.turnID !in TurnIDs(rows)
    ensures IndexedBy(index[b.turnID := |TurnIDs(rows)|], TurnIDs(rows + [b]))
  {
    hide TurnIDs;
    var ids := TurnIDs(rows);
    TurnIDsSnoc(rows, b);
    forall id | id in ids ensures SeqOf(ids + [b.turnID], id) == SeqOf(ids, id) {
      SeqOfAppend(ids, id, b.turnID);
    }
    assert (ids + [b.turnID])[..|ids|] == ids;
  }

  /** What one row does to the turn list and to the index into it. */
  lemma PlaceRow(index: map<string, nat>, before: seq<TurnEvent>, b: TurnEvent, turns: seq<Turn>)
    requires turns == TurnListOf(before) && IndexedBy(index, TurnIDs(before))
    ensures b.turnID !in index ==>
              && TurnListOf(before + [b]) == turns + [Turn(b.turnID, PlainEntry(b).role, PlainEntry(b).ts, [b.row.id])]
              && IndexedBy(index[b.turnID := |turns|], TurnIDs(before + [b]))
    ensures b.turnID in index ==>
              && index[b.turnID] < |turns| && IndexedBy(index, TurnIDs(before + [b]))
              && var at := index[b.turnID];
                 TurnListOf(before + [b]) == turns[at := turns[at].(entryIDs := turns[at].entryIDs + [b.row.id])]
  {
    hide TurnIDs, PlainEntry, EventsOfTurn, TurnOf;
    if b.turnID in index {
      TurnIDsSnoc(before, b);
      TurnListSameTurn(before, b);
    } else {
      TurnListNewTurn(before, b);
      IndexNewTurn(index, before, b);
    }
  }

  /** What buildTurns reads off the entry of row i, and the turn it puts it in. */
  lemma RowToPlace(table: Entries, rows: seq<TurnEvent>, pairs: Pairs, i: nat)
    requires i < |rows| && Settling(table, rows, pairs, i)
    ensures rows[i].row.id in table
    ensures var e, b := table[rows[i].row.id], Settled(rows)[i];
            && e.role == PlainEntry(b).role && e.ts == PlainEntry(b).ts
            && e.eventID == rows[i].row.id == b.row.id
            && b.turnID == LastSettled(rows[..i + 1]) == Resolve(LastSettled(rows[..i]), e.eventID, e.turnID)
  {
    hide Settled, LastSettled, PlainEntry;
    EntryGiven(table, rows, pairs, i);
    SettledRows(rows, i);
    SameRoleAndTime(rows[i].row, GivenTurnID(rows[i]), Settled(rows)[i].turnID, pairs);
  }

  /** buildTurns. */
  method BuildTurns(order: seq<nat>, table: EntryTable, ghost rows: seq<TurnEvent>, ghost pairs: Pairs) returns (turns: seq<Turn>)
    requires PositionsDistinct(rows) && order == IDsOf(rows) && Settling(table.entries, rows, pairs, 0)
    modifies table
    ensures turns == TurnListOf(Settled(rows))
    ensures Settling(table.entries, rows, pairs, |rows|)
  {
    hide PlainEntry, Settled, LastSettled, TurnIDs, TurnListOf, Settling, IndexedBy, PositionsDistinct;
    turns := [];
    var index: map<string, nat> := map[];
    var lastTurnID := "";
    IDsOfAt(rows);
    ghost var settled := Settled(rows);
    NoTurnsYet(rows);
    for i := 0 to |order|
      invariant turns == TurnListOf(settled[..i])
      invariant IndexedBy(index, TurnIDs(settled[..i]))
      invariant lastTurnID == LastSettled(rows[..i])
      invariant Settling(table.entries, rows, pairs, i)
    {
      var eid := order[i];
      RowToPlace(table.entries, rows, pairs, i);
      var e := table.entries[eid];
      var turnID := e.turnID;
      if turnID == "" {
        if lastTurnID != "" {
          turnID := lastTurnID;
        } else {
          turnID := "t_" + Decimal(e.eventID);
        }
      }
      lastTurnID := turnID;
      PlaceRow(index, settled[..i], settled[i], turns);
      assert settled[..i + 1] == settled[..i] + [settled[i]];
      if turnID !in index {
        index := index[turnID := |turns|];
        turns := turns + [Turn(turnID, e.role, e.ts, [eid])];
      } else {
        var idx := index[turnID];
        turns := turns[idx := turns[idx].(entryIDs := turns[idx].entryIDs + [eid])];
      }
      SettleOne(table.entries, rows, pairs, i);
      SettleSame(table.entries, rows, pairs, i);
      if e.turnID != turnID {
        table.entries := table.entries[eid := e.(turnID := turnID)];
      }
    }
    assert settled[..|rows|] == settled;
  }

  lemma NoTurnsYet(rows: seq<TurnEvent>)
    ensures TurnListOf(Settled(rows)[..0]) == [] && LastSettled(rows[..0]) == ""
    ensures IndexedBy(map[], TurnIDs(Settled(rows)[..0]))
  {
  }

  lemma EntryGiven(table: Entries, rows: seq<TurnEvent>, pairs: Pairs, i: nat)
    requires i < |rows| && Settling(table, rows, pairs, i)
    ensures rows[i].row.id in table
    ensures table[rows[i].row.id] == EntryOf(Given(rows[i]), pairs)
    ensures table[rows[i].row.id].turnID == GivenTurnID(rows[i]) && table[rows[i].row.id].eventID == rows[i].row.id
  {
  }

  lemma SameRoleAndTime(row: EventRow, id: string, id': string, pairs: Pairs)
    ensures var e, p := EntryOf(TurnEvent(id, row), pairs), PlainEntry(TurnEvent(id', row));
            e.role == p.role && e.ts == p.ts
  {
  }

  /** Writing back an entry unchanged leaves the table as it is. */
  lemma SettleSame(table: Entries, rows: seq<TurnEvent>, pairs: Pairs, i: nat)
    requires i < |rows| && Settling(table, rows, pairs, i)
    ensures var id := rows[i].row.id;
            id in table && (table[id].turnID == Settled(rows)[i].turnID ==>
              table[id := table[id].(turnID := Settled(rows)[i].turnID)] == table)
  {
    hide Wanted, Settled;
    SameWriteBack(table, rows[i].row.id, Settled(rows)[i].turnID);
  }

  lemma SameWriteBack(table: Entries, id: nat, turnID: string)
    ensures id in table && table[id].turnID == turnID ==> table[id := table[id].(turnID := turnID)] == table
  {
  }

  // ---------------------------------------------------------------- the whole build

  lemma SourcesOfSnoc(rows: seq<TurnEvent>, b: TurnEvent)
    ensures SourcesOf(rows + [b]) == AddSources(SourcesOf(rows), b.row)
  {
    assert (rows + [b])[..|rows|] == rows;
  }

  lemma {:induction false} SourcesIgnoreTurns(rows: seq<TurnEvent>)
    ensures SourcesOf(Settled(rows)) == SourcesOf(rows)
  {
    if rows != [] {
      hide AddSources;
      var init, last := rows[..|rows| - 1], rows[|rows| - 1];
      SourcesIgnoreTurns(init);
      assert rows == init + [last];
      SettledSnoc(init, last);
      SourcesOfSnoc(Settled(init), TurnEvent(LastSettled(rows), last.row));
    }
  }

  lemma {:induction false} ContextIsPositive(rows: seq<TurnEvent>)
    requires forall i :: 0 <= i < |rows| ==> 0 < rows[i].row.id
    ensures SourcesOf(rows).contextEventID == 0 ==> SourcesOf(rows).contextTokens == 0 && SourcesOf(rows).contextLimit == 0
  {
    if rows != [] {
      ContextIsPositive(rows[..|rows| - 1]);
    }
  }

  /** The entry table while the first loop is at row i. */
  ghost predicate Reading(table: Entries, rows: seq<TurnEvent>, pairs: Pairs) {
    && (forall x :: x in table <==> exists b :: b in rows && b.row.id == x)
    && (forall j :: 0 <= j < |rows| ==> rows[j].row.id in table && table[rows[j].row.id] == EntryOf(Given(rows[j]), pairs))
  }

  lemma ReadOne(table: Entries, rows: seq<TurnEvent>, b: TurnEvent, pairs: Pairs)
    requires PositionsDistinct(rows + [b]) && Reading(table, rows, pairs)
    ensures Reading(table[b.row.id := EntryOf(Given(b), pairs)], rows + [b], pairs)
  {
    hide EntryOf, Given;
    var all := rows + [b];
    assert forall j :: 0 <= j < |rows| ==> all[j] == rows[j];
    assert all[|rows|] == b;
    forall x | x in table ensures exists c :: c in all && c.row.id == x {
      var c :| c in rows && c.row.id == x;
      assert c in all;
    }
    assert b in all;
    forall c | c in all ensures c in rows || c == b {
    }
  }

  lemma ReadingIsSettling(table: Entries, rows: seq<TurnEvent>, pairs: Pairs)
    requires Reading(table, rows, pairs)
    ensures Settling(table, rows, pairs, 0)
  {
    hide EntryOf, Settled, Given;
  }

  /** A row as the first loop turns it into an entry: default annotation first, then the pair's. */
  method ReadRow(r: TurnEvent, pairs: Pairs, table: EntryTable)
    modifies table
    ensures table.entries == old(table.entries)[r.row.id := EntryOf(Given(r), pairs)]
  {
    var turnID := GivenTurnID(r);
    var e := PlainEntry(TurnEvent(turnID, r.row));
    table.entries := table.entries[r.row.id := e];
    if r.row.body.Some? {
      var source := r.row.body.value.source;
      if r.row.id in pairs {
        var harnessID := r.row.id;
        if source == OTel {
          harnessID := pairs[r.row.id];
        }
        e := e.(groupID := Some(harnessID), primary := source != OTel, duplicate := source == OTel);
        table.entries := table.entries[r.row.id := e];
      }
    }
  }

  /** The sources after one more event, kept up variable by variable. */
  method ReadSources(row: EventRow, s: AggregateSources) returns (s': AggregateSources)
    ensures s' == AddSources(s, row)
  {
    s' := s;
    if row.body.None? {
      return;
    }
    var ev := row.body.value;
    if ev.typ == APISpendTotal && ev.apiSpendTotal.Some? {
      s' := s'.(spendEventID := row.id, spend := ev.apiSpendTotal);
    }
    if ev.typ == SessionCost && ev.sessionCost.Some? {
      s' := s'.(costEventID := row.id, cost := ev.sessionCost);
    }
    var context := ContextFromEvent(ev);
    if context.Some? {
      s' := s'.(contextEventID := row.id, contextTokens := context.value.contextTokens, contextLimit := context.value.contextLimit);
    }
  }

  function TextBlocksUpTo(rows: seq<TurnEvent>): set<nat> {
    set b | b in rows && IsTextBlock(b.row) :: b.row.id
  }

  lemma TextBlocksSnoc(rows: seq<TurnEvent>, b: TurnEvent)
    ensures TextBlocksUpTo(rows + [b]) == TextBlocksUpTo(rows) + if IsTextBlock(b.row) then {b.row.id} else {}
  {
    hide IsTextBlock;
    assert forall c :: c in rows + [b] <==> c in rows || c == b;
  }

  lemma SettledTextBlocks(rows: seq<TurnEvent>)
    ensures TextBlockIDs(Settled(rows)) == TextBlocksUpTo(rows)
  {
    hide IsTextBlock, Settled;
    var settled := Settled(rows);
    forall i | 0 <= i < |rows| ensures settled[i].row == rows[i].row {
      SettledRows(rows, i);
    }
    forall x | x in TextBlocksUpTo(rows) ensures x in TextBlockIDs(settled) {
      var b :| b in rows && IsTextBlock(b.row) && b.row.id == x;
      var i :| 0 <= i < |rows| && rows[i] == b;
      assert settled[i] in settled;
    }
    forall x | x in TextBlockIDs(settled) ensures x in TextBlocksUpTo(rows) {
      var b :| b in settled && IsTextBlock(b.row) && b.row.id == x;
      var i :| 0 <= i < |rows| && settled[i] == b;
      assert rows[i] in rows;
    }
  }

  /** The turn list names only rows the table holds, and so do the text block ids. */
  lemma BuiltTablesMatch(rows: seq<TurnEvent>, pairs: Pairs)
    requires DistinctIDs(rows)
    ensures Listed(TurnListOf(rows), FirstPass(rows, pairs))
    ensures TextBlockIDs(rows) <= FirstPass(rows, pairs).Keys
  {
    hide TurnListOf, EntryOf, IsTextBlock;
    forall t, x | t in TurnListOf(rows) && x in t.entryIDs ensures x in FirstPass(rows, pairs) {
      TurnListed(rows, t);
      var b :| b in rows && b.turnID == t.id && b.row.id == x;
    }
  }

  /** The three passes on the settled table. */
  method SurfaceAll(turns: seq<Turn>, table: EntryTable, textBlockIDs: set<nat>)
    requires Listed(turns, table.entries) && textBlockIDs <= table.entries.Keys
    modifies table
    ensures table.entries == ThreePasses(turns, textBlockIDs, old(table.entries))
  {
    hide RecoveredHit, UnsupersededHit, NarrationHit;
    SurfaceRecoveredBlocks(turns, table);
    SurfaceUnsupersededBlocks(turns, table, textBlockIDs);
    SurfaceNarrationBlocks(table, textBlockIDs);
  }

  /** buildTurnModelWithAggregateSources. */
  method BuildTurnModel(rows: seq<TurnEvent>, more: bool, pairs: Pairs) returns (model: Model, sources: AggregateSources)
    requires PositionsDistinct(rows)
    ensures DistinctIDs(Settled(rows))
    ensures model == ModelOf(Settled(rows), pairs, more)
    ensures sources == SourcesOf(rows)
  {
    hide PlainEntry, EntryOf, Settled, LastSettled, TurnIDs, TurnListOf, Settling, Reading, AddSources, IsTextBlock, EntriesOf;
    hide ThreePasses, FirstPass, TextBlocksUpTo, PositionsDistinct;
    var table := new EntryTable();
    var order, textBlockIDs;
    order, textBlockIDs, sources := ReadRows(rows, pairs, table);
    ReadingIsSettling(table.entries, rows, pairs);
    var turns := BuildTurns(order, table, rows, pairs);
    SettledDistinct(rows);
    AllSettled(table.entries, rows, pairs);
    SettledTextBlocks(rows);
    BuiltTablesMatch(Settled(rows), pairs);
    SurfaceAll(turns, table, textBlockIDs);
    PassesMeetClosedForm(Settled(rows), pairs);
    SourcesIgnoreTurns(rows);
    model := Model(turns, table.entries, more, AggregatesOf(sources), map[]);
  }

  /** The first loop: an entry for every row, the order, the text blocks and the aggregate sources. */
  method ReadRows(rows: seq<TurnEvent>, pairs: Pairs, table: EntryTable)
    returns (order: seq<nat>, textBlockIDs: set<nat>, sources: AggregateSources)
    requires PositionsDistinct(rows) && table.entries == map[]
    modifies table
    ensures Reading(table.entries, rows, pairs) && order == IDsOf(rows)
    ensures textBlockIDs == TextBlocksUpTo(rows) && sources == SourcesOf(rows)
  {
    hide PlainEntry, EntryOf, Settled, LastSettled, TurnIDs, TurnListOf, Settling, Reading, AddSources, IsTextBlock, EntriesOf;
    hide ThreePasses, FirstPass, IDsOf, SourcesOf, TextBlocksUpTo;
    order, textBlockIDs, sources := [], {}, NoSources;
    NothingReadYet(rows, pairs);
    for i := 0 to |rows|
      invariant Reading(table.entries, rows[..i], pairs)
      invariant order == IDsOf(rows[..i])
      invariant textBlockIDs == TextBlocksUpTo(rows[..i])
      invariant sources == SourcesOf(rows[..i])
    {
      var r := rows[i];
      assert rows[..i + 1] == rows[..i] + [r];
      ReadOne(table.entries, rows[..i], r, pairs);
      ReadRow(r, pairs, table);
      IDsOfSnoc(rows[..i], r);
      order := order + [r.row.id];
      TextBlocksSnoc(rows[..i], r);
      if IsTextBlock(r.row) {
        textBlockIDs := textBlockIDs + {r.row.id};
      }
      SourcesOfSnoc(rows[..i], r);
      sources := ReadSources(r.row, sources);
    }
    assert rows[..|rows|] == rows;
  }

  lemma NothingReadYet(rows: seq<TurnEvent>, pairs: Pairs)
    ensures Reading(map[], rows[..0], pairs) && IDsOf(rows[..0]) == [] && TextBlocksUpTo(rows[..0]) == {}
    ensures SourcesOf(rows[..0]) == NoSources
  {
  }

  // ---------------------------------------------------------------- the projection

  lemma PrunedIDsSnoc(ids: seq<nat>, x: nat, kept: Entries)
    ensures PrunedIDs(ids + [x], kept) == if x in kept then PrunedIDs(ids, kept) + [x] else PrunedIDs(ids, kept)
  {
    assert (ids + [x])[..|ids|] == ids;
  }

  /** The entries among some ids. */
  function Among(entries: Entries, ids: set<nat>): Entries {
    map id | id in entries && id in ids :: entries[id]
  }

  lemma GroupOneMore(entries: Entries, ids: set<nat>, id: nat)
    requires id in entries && id !in ids
    ensures GroupsOf(Among(entries, ids + {id})) ==
            if entries[id].groupID.Some? then GroupsOf(Among(entries, ids))[entries[id].groupID.value := [Harness, OTel]]
            else GroupsOf(Among(entries, ids))
  {
    var now, next := Among(entries, ids), Among(entries, ids + {id});
    forall g | g in GroupsOf(now) ensures g in GroupsOf(next) {
      var x :| x in now && now[x].groupID.Some? && now[x].groupID.value == g;
      assert next[x] == now[x];
    }
    if entries[id].groupID.Some? {
      assert next[id].groupID.Some?;
    }
  }

  lemma KeptOneMore(entries: Entries, ids: set<nat>, id: nat)
    requires id in entries && id !in ids
    ensures KeptOf(Among(entries, ids + {id})) ==
            if entries[id].duplicate then KeptOf(Among(entries, ids))
            else KeptOf(Among(entries, ids))[id := entries[id].(raw := None)]
  {
  }

  /** The first two loops of projectForReading, over the entries in any order. */
  method ProjectEntries(entries: Entries) returns (groups: map<nat, seq<Source>>, kept: Entries)
    ensures groups == GroupsOf(entries) && kept == KeptOf(entries)
  {
    hide GroupsOf, KeptOf;
    groups, kept := map[], map[];
    var left := entries.Keys;
    NothingAmong(entries);
    while left != {}
      invariant left <= entries.Keys
      invariant groups == GroupsOf(Among(entries, entries.Keys - left))
      invariant kept == KeptOf(Among(entries, entries.Keys - left))
      decreases left
    {
      var id :| id in left;
      var e := entries[id];
      GroupOneMore(entries, entries.Keys - left, id);
      KeptOneMore(entries, entries.Keys - left, id);
      assert entries.Keys - (left - {id}) == (entries.Keys - left) + {id};
      left := left - {id};
      if e.groupID.Some? {
        groups := groups[e.groupID.value := [Harness, OTel]];
      }
      if !e.duplicate {
        kept := kept[id := e.(raw := None)];
      }
    }
    assert Among(entries, entries.Keys - {}) == entries;
  }

  lemma NothingAmong(entries: Entries)
    ensures GroupsOf(Among(entries, entries.Keys - entries.Keys)) == map[]
    ensures KeptOf(Among(entries, entries.Keys - entries.Keys)) == map[]
  {
  }

  /** projectForReading; the argument is left as it is. */
  method ProjectForReading(m: Model) returns (p: Model)
    ensures p == Projected(m)
  {
    var groups, kept := ProjectEntries(m.entries);
    var turns: seq<Turn> := [];
    for i := 0 to |m.turns|
      invariant turns == Pruned(m.turns[..i], kept)
    {
      var t := m.turns[i];
      var entryIDs: seq<nat> := [];
      for j := 0 to |t.entryIDs|
        invariant entryIDs == PrunedIDs(t.entryIDs[..j], kept)
      {
        assert t.entryIDs[..j + 1] == t.entryIDs[..j] + [t.entryIDs[j]];
        PrunedIDsSnoc(t.entryIDs[..j], t.entryIDs[j], kept);
        if t.entryIDs[j] in kept {
          entryIDs := entryIDs + [t.entryIDs[j]];
        }
      }
      assert t.entryIDs[..|t.entryIDs|] == t.entryIDs;
      turns := turns + [t.(entryIDs := entryIDs)];
      assert m.turns[..i + 1] == m.turns[..i] + [t];
    }
    assert m.turns[..|m.turns|] == m.turns;
    p := m.(turns := turns, entries := kept, sourceGroups := groups);
  }
}
