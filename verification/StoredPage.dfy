/** A page put together from stored turns, against the same page built from its events. */
module StoredPage {
  import opened Options
  import opened Events
  import opened TurnRule
  import opened TurnIndex
  import opened Dedup
  import opened TurnModel
  import opened Visibility
  import opened Composition
  import opened Latest
  import opened Preview

  /** What is stored for one turn: its projected turn, its source groups, its aggregate sources and its
      visible entries with previewed tool payloads. JSON encoding and decoding is taken to be lossless. */
  datatype Built = Built(turn: Turn, groups: map<nat, seq<Source>>, sources: AggregateSources, entries: seq<Entry>)

  /** The stored entry of a visible row. */
  function StoredEntry(all: seq<TurnEvent>, pairs: Pairs, b: TurnEvent): Entry {
    Previewed(FinalEntry(all, pairs, b).(raw := None), b.row)
  }

  function StoredEntries(all: seq<TurnEvent>, rows: seq<TurnEvent>, pairs: Pairs): seq<Entry> {
    if rows == [] then []
    else
      var last := rows[|rows| - 1];
      if FinalEntry(all, pairs, last).duplicate then StoredEntries(all, rows[..|rows| - 1], pairs)
      else StoredEntries(all, rows[..|rows| - 1], pairs) + [StoredEntry(all, pairs, last)]
  }

  /** materializeStoredTurn's content for the rows of one turn. */
  function StoredFor(rows: seq<TurnEvent>, pairs: Pairs): Built
    requires rows != [] && DistinctIDs(rows)
  {
    var entries := EntriesOf(rows, pairs);
    Built(TurnOf(rows).(entryIDs := PrunedIDs(IDsOf(rows), KeptOf(entries))), GroupsOf(entries), SourcesOf(rows),
          StoredEntries(rows, rows, pairs))
  }

  // ---------------------------------------------------------------- assembly

  function EntryMap(stored: seq<Entry>): map<nat, Entry> {
    if stored == [] then map[]
    else EntryMap(stored[..|stored| - 1])[stored[|stored| - 1].eventID := stored[|stored| - 1]]
  }

  function UnionGroups(window: seq<Built>): map<nat, seq<Source>> {
    if window == [] then map[] else UnionGroups(window[..|window| - 1]) + window[|window| - 1].groups
  }

  function TurnsIn(window: seq<Built>): (turns: seq<Turn>)
    ensures |turns| == |window|
  {
    seq(|window|, i requires 0 <= i < |window| => window[i].turn)
  }

  function SourcesIn(window: seq<Built>): (sources: seq<AggregateSources>)
    ensures |sources| == |window|
  {
    seq(|window|, i requires 0 <= i < |window| => window[i].sources)
  }

  function Assembled(window: seq<Built>, stored: seq<Entry>, more: bool): Model {
    Model(TurnsIn(window), EntryMap(stored), more, AggregatesOf(MergeAll(SourcesIn(window))), UnionGroups(window))
  }

  /** A loop over a map's pairs that writes each into another map. */
  method CopyGroups(groups: map<nat, seq<Source>>, into: map<nat, seq<Source>>) returns (all: map<nat, seq<Source>>)
    ensures all == into + groups
  {
    all := into;
    var left := groups.Keys;
    while left != {}
      invariant left <= groups.Keys
      invariant all == into + (map g | g in groups && g !in left :: groups[g])
      decreases left
    {
      var g :| g in left;
      all := all[g := groups[g]];
      left := left - {g};
    }
    assert groups == map g | g in groups && g !in left :: groups[g];
  }

  /** assembleStoredPage. */
  method AssembleStoredPage(window: seq<Built>, stored: seq<Entry>, more: bool) returns (model: Model)
    ensures model == Assembled(window, stored, more)
  {
    var latest := NoSources;
    var haveContext := false;
    var turns: seq<Turn> := [];
    var groups: map<nat, seq<Source>> := map[];
    for i := 0 to |window|
      invariant turns == TurnsIn(window[..i])
      invariant groups == UnionGroups(window[..i])
      invariant latest == MergeAll(SourcesIn(window[..i]))
      invariant haveContext == (latest.contextEventID > 0)
    {
      var turn := window[i];
      MergeOneMore(window, i);
      turns := turns + [turn.turn];
      groups := CopyGroups(turn.groups, groups);
      var s := turn.sources;
      var was := latest;
      if s.spend.Some? && s.spendEventID > was.spendEventID {
        latest := latest.(spendEventID := s.spendEventID, spend := s.spend);
      }
      if s.cost.Some? && s.costEventID > was.costEventID {
        latest := latest.(costEventID := s.costEventID, cost := s.cost);
      }
      if s.contextEventID > was.contextEventID {
        latest := latest.(contextEventID := s.contextEventID, contextTokens := s.contextTokens, contextLimit := s.contextLimit);
        haveContext := true;
      }
    }
    assert window[..|window|] == window;
    var entries: map<nat, Entry> := map[];
    for i := 0 to |stored|
      invariant entries == EntryMap(stored[..i])
    {
      assert stored[..i + 1][..i] == stored[..i];
      entries := entries[stored[i].eventID := stored[i]];
    }
    assert stored[..|stored|] == stored;
    model := Model(turns, entries, more,
                   BuildAggregates(latest.spend, latest.cost, latest.contextTokens, latest.contextLimit, haveContext), groups);
  }

  lemma MergeOneMore(window: seq<Built>, i: nat)
    requires i < |window|
    ensures TurnsIn(window[..i + 1]) == TurnsIn(window[..i]) + [window[i].turn]
    ensures UnionGroups(window[..i + 1]) == UnionGroups(window[..i]) + window[i].groups
    ensures MergeAll(SourcesIn(window[..i + 1])) == MergeSources(MergeAll(SourcesIn(window[..i])), window[i].sources)
  {
    assert window[..i + 1][..i] == window[..i];
    assert SourcesIn(window[..i + 1]) == SourcesIn(window[..i]) + [window[i].sources];
    assert SourcesIn(window[..i + 1])[..i] == SourcesIn(window[..i]);
  }

  /** An entry whose payload was cut needs its event, and needs it decodable. */
  predicate CanExpand(e: Entry, id: nat, bodies: map<nat, EventRow>) {
    e.toolInputTruncated || e.toolResultTruncated ==> id in bodies && bodies[id].body.Some?
  }

  /** The body of expandToolPayloads' loop; None is one of its two errors. */
  method ExpandEntry(e: Entry, id: nat, bodies: map<nat, EventRow>) returns (full: Option<Entry>)
    ensures full.Some? <==> CanExpand(e, id, bodies)
    ensures full.Some? && id in bodies ==> full.value == Expanded(e, bodies[id])
  {
    var f := e;
    if f.toolInputTruncated || f.toolResultTruncated {
      if id !in bodies {
        return None;
      }
      if bodies[id].body.None? {
        return None;
      }
      f := f.(toolInput := ToolInputOf(bodies[id].body.value), toolResult := ToolResultOf(bodies[id].body.value));
    }
    f := f.(toolInputBytes := 0, toolInputTruncated := false);
    f := f.(toolResultBytes := 0, toolResultTruncated := false);
    full := Some(f);
  }

  /** expandToolPayloads over a page's entries; None when a cut entry's event is gone or cannot be decoded. */
  method ExpandToolPayloads(entries: map<nat, Entry>, bodies: map<nat, EventRow>) returns (full: Option<map<nat, Entry>>)
    ensures full.Some? <==> forall id :: id in entries ==> CanExpand(entries[id], id, bodies)
    ensures full.Some? && entries.Keys <= bodies.Keys ==>
              full.value == map id | id in entries :: Expanded(entries[id], bodies[id])
  {
    hide Expanded, CanExpand;
    var out := entries;
    var left := entries.Keys;
    while left != {}
      invariant left <= entries.Keys && out.Keys == entries.Keys
      invariant forall id :: id in left ==> out[id] == entries[id]
      invariant forall id :: id in entries && id !in left ==> CanExpand(entries[id], id, bodies)
      invariant forall id :: id in entries && id !in left && id in bodies ==> out[id] == Expanded(entries[id], bodies[id])
      decreases left
    {
      var id :| id in left;
      var e := ExpandEntry(out[id], id, bodies);
      if e.None? {
        return None;
      }
      out := out[id := e.value];
      left := left - {id};
    }
    full := Some(out);
  }

  // ---------------------------------------------------------------- the page of some rows

  function RowsByID(rows: seq<TurnEvent>): map<nat, EventRow>
    requires DistinctIDs(rows)
  {
    map b | b in rows :: b.row.id := b.row
  }

  /** Each turn of some rows as it is stored when fresh. */
  function BuiltTurns(rows: seq<TurnEvent>, pairs: Pairs): (window: seq<Built>)
    requires DistinctIDs(rows)
    ensures |window| == |TurnIDs(rows)|
  {
    seq(|TurnIDs(rows)|, i requires 0 <= i < |TurnIDs(rows)| =>
      (TurnRowsAreRows(rows, i + 1); TurnRowsDistinct(rows, TurnIDs(rows)[i]); StoredFor(EventsOfTurn(rows, i + 1), pairs)))
  }

  /** The stored entries of a window, in whatever order they are read. */
  ghost predicate HoldsEntriesOf(stored: seq<Entry>, window: seq<Built>) {
    forall e :: e in stored <==> exists i :: 0 <= i < |window| && e in window[i].entries
  }

  /** A page's entries with every payload full again. */
  function FullEntries(entries: map<nat, Entry>, rows: seq<TurnEvent>): map<nat, Entry>
    requires DistinctIDs(rows) && entries.Keys <= RowsByID(rows).Keys
  {
    map id | id in entries :: Expanded(entries[id], RowsByID(rows)[id])
  }

  function FullPage(m: Model, rows: seq<TurnEvent>): Model
    requires DistinctIDs(rows) && m.entries.Keys <= RowsByID(rows).Keys
  {
    m.(entries := FullEntries(m.entries, rows))
  }
}
