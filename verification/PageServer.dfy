/** The server's own steps over the store and the cache, one after another with no other writer in between:
    read the pairing, build the turns that need it, put the page together. */
module PageServer {
  import opened Options
  import opened Events
  import opened TurnRule
  import opened IndexRules
  import opened TurnIndex
  import opened IndexFacts
  import opened IndexProtocol
  import opened IndexStore
  import opened Dedup
  import opened Pairing
  import opened TurnModel
  import opened Grouping
  import opened BuildModel
  import opened Composition
  import opened Preview
  import opened StoredPage
  import opened PageEquality
  import opened Cache
  import opened CacheSafety
  import opened Freshness
  import opened Materializing
  import opened TurnWindow
  import opened ServedPage

  // ---------------------------------------------------------------- sessionPairing

  function Filed(byTurn: map<nat, seq<nat>>, k: nat): seq<nat> {
    if k in byTurn then byTurn[k] else []
  }

  /** A session's dual-emit pairs, and its candidates turn by turn. */
  datatype SessionPairs = SessionPairs(pairs: Pairs, byTurn: map<nat, seq<nat>>)

  ghost predicate PairsFor(cands: seq<Candidate>, p: SessionPairs) {
    RisingCandidates(cands) && p.pairs == PairsOf(cands) && forall k :: Filed(p.byTurn, k) == TurnCandidates(cands, k)
  }

  lemma FileOneMore(cands: seq<Candidate>, c: Candidate, k: nat)
    ensures TurnCandidates(cands + [c], k) ==
            if c.turnSeq == k then TurnCandidates(cands, k) + [c.eventID] else TurnCandidates(cands, k)
  {
    assert (cands + [c])[..|cands|] == cands;
  }

  /** sessionPairing. */
  method ReadSessionPairs(candidates: seq<Candidate>) returns (p: SessionPairs)
    requires RisingCandidates(candidates)
    ensures PairsFor(candidates, p)
  {
    hide PairsOf, RisingCandidates, TurnCandidates;
    var pairs := PairDualEmits(candidates);
    var byTurn: map<nat, seq<nat>> := map[];
    NothingFiled();
    for i := 0 to |candidates|
      invariant forall k :: Filed(byTurn, k) == TurnCandidates(candidates[..i], k)
    {
      var c := candidates[i];
      assert candidates[..i + 1] == candidates[..i] + [c];
      ghost var was := byTurn;
      byTurn := byTurn[c.turnSeq := Filed(byTurn, c.turnSeq) + [c.eventID]];
      forall k ensures Filed(byTurn, k) == TurnCandidates(candidates[..i + 1], k) {
        FileOneMore(candidates[..i], c, k);
        assert Filed(was, k) == TurnCandidates(candidates[..i], k);
      }
    }
    assert candidates[..|candidates|] == candidates;
    p := SessionPairs(pairs, byTurn);
  }

  lemma NothingFiled()
    ensures forall k :: TurnCandidates([], k) == []
  {
  }

  lemma {:induction false} TurnCandidatesRise(cands: seq<Candidate>, k: nat)
    requires RisingCandidates(cands)
    ensures forall id :: id in TurnCandidates(cands, k) ==> cands != [] && id <= cands[|cands| - 1].eventID
    ensures forall i, j :: 0 <= i < j < |TurnCandidates(cands, k)| ==> TurnCandidates(cands, k)[i] < TurnCandidates(cands, k)[j]
  {
    if cands != [] {
      var init := cands[..|cands| - 1];
      TurnCandidatesRise(init, k);
      var before := TurnCandidates(init, k);
      forall i | 0 <= i < |before| ensures before[i] < cands[|cands| - 1].eventID {
        assert before[i] in before;
      }
    }
  }

  /** sessionPairing.fingerprint: the pairs a turn depends on, as they are now. */
  method TurnFingerprint(p: SessionPairs, k: nat, ghost cands: seq<Candidate>) returns (text: string)
    requires PairsFor(cands, p)
    ensures text == Fingerprint(cands, k)
  {
    hide PairsOf, TurnCandidates, FingerprintText;
    TurnCandidatesRise(cands, k);
    SortedAlready(Filed(p.byTurn, k));
    text := PairsFingerprint(Filed(p.byTurn, k), p.pairs);
  }

  // ---------------------------------------------------------------- one turn's content

  /** The previews of some kept entries, in the order of their ids. */
  function PreviewsOf(ids: seq<nat>, kept: map<nat, Entry>, byID: map<nat, EventRow>): seq<Entry>
    requires forall x :: x in ids ==> x in kept && x in byID
  {
    if ids == [] then []
    else
      assert forall x :: x in ids[..|ids| - 1] ==> x in ids;
      PreviewsOf(ids[..|ids| - 1], kept, byID) + [Previewed(kept[ids[|ids| - 1]], byID[ids[|ids| - 1]])]
  }

  lemma PrunedAreKept(rows: seq<TurnEvent>, part: seq<TurnEvent>, kept: map<nat, Entry>)
    requires DistinctIDs(rows) && forall b :: b in part ==> b in rows
    ensures forall x :: x in PrunedIDs(IDsOf(part), kept) ==> x in kept && x in RowsByID(rows)
  {
    if part != [] {
      var init, last := part[..|part| - 1], part[|part| - 1];
      assert part == init + [last];
      PrunedAreKept(rows, init, kept);
      assert last in rows;
      assert IDsOf(part)[..|IDsOf(init)|] == IDsOf(init);
    }
  }

  /** Previewing the entries a turn lists, in its order, gives what is stored for its rows. */
  lemma {:induction false} PreviewsAreStored(rows: seq<TurnEvent>, part: seq<TurnEvent>, pairs: Pairs)
    requires DistinctIDs(rows) && forall b :: b in part ==> b in rows
    ensures forall x :: x in PrunedIDs(IDsOf(part), KeptOf(EntriesOf(rows, pairs))) ==>
              x in KeptOf(EntriesOf(rows, pairs)) && x in RowsByID(rows)
    ensures PreviewsOf(PrunedIDs(IDsOf(part), KeptOf(EntriesOf(rows, pairs))), KeptOf(EntriesOf(rows, pairs)), RowsByID(rows))
            == StoredEntries(rows, part, pairs)
  {
    hide FinalEntry, EntriesOf, KeptOf, Previewed;
    var kept, byID := KeptOf(EntriesOf(rows, pairs)), RowsByID(rows);
    PrunedAreKept(rows, part, kept);
    if part != [] {
      var init, last := part[..|part| - 1], part[|part| - 1];
      assert part == init + [last];
      PreviewsAreStored(rows, init, pairs);
      assert last in rows;
      KeptAt(rows, pairs, last);
      assert IDsOf(part) == IDsOf(init) + [last.row.id];
      assert IDsOf(part)[..|IDsOf(part)| - 1] == IDsOf(init);
      var ids := PrunedIDs(IDsOf(init), kept);
      assert (ids + [last.row.id])[..|ids|] == ids;
    }
  }

  /** A turn's rows: non-empty, in event order, all under one turn id. */
  ghost predicate OneTurnRows(rows: seq<TurnEvent>) {
    rows != [] && Rising(rows) && rows[0].turnID != "" && forall b :: b in rows ==> b.turnID == rows[0].turnID
  }

  lemma RisingPositions(rows: seq<TurnEvent>)
    requires Rising(rows)
    ensures PositionsDistinct(rows) && DistinctIDs(rows)
  {
    DistinctPositionsDistinctIDs(rows);
  }

  /** What projecting the build of one turn leaves. */
  lemma ProjectedTurn(rows: seq<TurnEvent>, pairs: Pairs, model: Model)
    requires OneTurnRows(rows) && DistinctIDs(Settled(rows)) && DistinctIDs(rows)
    requires model == Projected(ModelOf(Settled(rows), pairs, false))
    ensures var kept := KeptOf(EntriesOf(rows, pairs));
            && model.entries == kept && model.sourceGroups == GroupsOf(EntriesOf(rows, pairs))
            && model.turns == [TurnOf(rows).(entryIDs := PrunedIDs(IDsOf(rows), kept))]
  {
    hide Rising, DistinctIDs, EntriesOf, KeptOf, GroupsOf, Settled, TurnIDs, PrunedIDs, IDsOf, TurnListOf;
    IndexedRowsAreSettled(rows);
    OneTurnFromOneTurn(rows, rows[0].turnID);
  }

  /** The part of materializeStoredTurn between reading the events and replacing the rows. */
  method BuildStoredTurn(rows: seq<TurnEvent>, pairs: Pairs) returns (built: Built, through: nat)
    requires OneTurnRows(rows)
    ensures built == StoredTurn(rows, pairs)
    ensures through == rows[|rows| - 1].row.id
  {
    hide Settled, EntriesOf, KeptOf, GroupsOf, StoredEntries, SourcesOf, PrunedIDs, IDsOf, ModelOf, Projected, Previewed;
    hide DistinctIDs, PositionsDistinct;
    RisingPositions(rows);
    var full, sources := BuildTurnModel(rows, false, pairs);
    var projected := ProjectForReading(full);
    ProjectedTurn(rows, pairs, projected);
    PreviewsAreStored(rows, rows, pairs);
    through := NewestOf(rows);
    var turn := projected.turns[0];
    var entries := PreviewAll(turn.entryIDs, projected.entries, RowsByID(rows));
    built := Built(turn, projected.sourceGroups, sources, entries);
  }

  method NewestOf(rows: seq<TurnEvent>) returns (through: nat)
    requires rows != [] && Rising(rows)
    ensures through == rows[|rows| - 1].row.id
  {
    through := 0;
    for i := 0 to |rows|
      invariant through == if i == 0 then 0 else rows[i - 1].row.id
    {
      if rows[i].row.id > through {
        through := rows[i].row.id;
      }
    }
  }

  method PreviewAll(ids: seq<nat>, kept: map<nat, Entry>, byID: map<nat, EventRow>) returns (entries: seq<Entry>)
    requires forall x :: x in ids ==> x in kept && x in byID
    ensures entries == PreviewsOf(ids, kept, byID)
  {
    hide Previewed;
    entries := [];
    for i := 0 to |ids|
      invariant entries == PreviewsOf(ids[..i], kept, byID)
    {
      assert ids[..i + 1][..i] == ids[..i];
      entries := entries + [Previewed(kept[ids[i]], byID[ids[i]])];
    }
    assert ids[..|ids|] == ids;
  }

  // ---------------------------------------------------------------- the server

  /** The events of the log by id, as EventBodies reads them. */
  function BodiesOf(log: seq<EventRow>): map<nat, EventRow> {
    if log == [] then map[] else BodiesOf(log[..|log| - 1])[log[|log| - 1].id := log[|log| - 1]]
  }

  /** A server over one session's store and its stored turns. `build` is what each version of the rules
      makes of a turn; the server runs `version`, whose rules are this model's. */
  class TurnServer {
    const store: Store
    const version: int
    ghost const build: Build<Built>
    var stored: map<nat, Stored<Built>>

    constructor (store: Store, version: int, ghost build: Build<Built>)
      requires store.Valid() && Inv(store.View()) && BuildsStoredTurns(build, version)
      ensures Valid() && this.store == store && this.version == version && stored == map[]
    {
      this.store, this.version, this.build, this.stored := store, version, build, map[];
    }

    /** The server as the cache protocol sees it between materializations. */
    ghost function View(): Server<Built>
      reads this, store
    {
      Server(store.View(), version, stored, map[])
    }

    ghost predicate Valid()
      reads this, store
    {
      store.Valid() && BuildsStoredTurns(build, version) && ServerInv(build, View())
    }

    /** BuildTurnIndex as a page read runs it: stored turns fall with the leftovers it deletes. */
    method IndexTurns()
      requires Valid()
      modifies this, store
      ensures Valid() && Current(store.View()) && store.log == old(store.log)
      ensures stored == if Current(old(store.View())) then old(stored) else map[]
    {
      hide Inv, IndexOf, StateOf, GoodStored, BuildsStoredTurns;
      if !(store.row.Some? && store.row.value.version == store.running) {
        stored := map[];
      }
      ghost var was := store.View();
      var ok := store.BuildTurnIndex();
      if !Current(was) {
        IndexedInv(store.View());
      }
    }

    /** TurnEvents. */
    method TurnEvents(k: nat, turnID: string) returns (rows: seq<TurnEvent>)
      ensures rows == SelectTurnEvents(store.tables, store.log, k, turnID)
    {
      rows := [];
      var log := store.log;
      for i := 0 to |log|
        invariant rows == SelectTurnEvents(store.tables, log[..i], k, turnID)
      {
        assert log[..i + 1][..i] == log[..i];
        if log[i].id in store.tables.eventTurns && store.tables.eventTurns[log[i].id] == k {
          rows := rows + [TurnEvent(turnID, log[i])];
        }
      }
      assert log[..|log|] == log;
    }

    /** materializeStoredTurn. On a current index its two errors cannot happen: the turn has events, and they
        build into one turn. */
    method MaterializeStoredTurn(k: nat, p: SessionPairs)
      requires Valid() && Current(store.View()) && k in store.tables.turns && PairsFor(store.tables.candidates, p)
      modifies this
      ensures Valid() && View() == RunServer(build, old(View()), Materialization(0, k))
      ensures k in stored && stored == old(stored)[k := stored[k]] && !Stale(View(), k)
      ensures 1 <= k <= |TurnIDs(RowsNow(store.View()))|
      ensures stored[k].content == build(version, EventsOfTurn(RowsNow(store.View()), k), PairsNow(store.View()))
    {
      hide ServerInv, BuildsStoredTurns, TurnIDs, Tagged, EventsOfTurn, SelectTurnEvents, StoredTurn, Materialized, Fingerprint, Stale;
      hide PairsFor, OneTurnRows;
      var rows := TurnEvents(k, store.tables.turns[k].turnID);
      TurnRead(build, View(), k);
      assert OneTurnRows(rows);
      ghost var was := View();
      var built, through := BuildStoredTurn(rows, p.pairs);
      var fingerprint := TurnFingerprint(p, k, store.tables.candidates);
      stored := stored[k := Stored(version, through, fingerprint, built)];
      MaterializedIs(build, was, k, p, stored[k]);
      MaterializedKeepsInv(build, was, k);
      AloneMaterialization(build, was, k);
    }

    /** The loop of storedTail over the window: afterwards no turn of it needs materializing. */
    method FreshenTurns(first: nat, last: nat, p: SessionPairs)
      requires Valid() && Current(store.View()) && PairsFor(store.tables.candidates, p)
      requires 1 <= first <= last && forall k :: first <= k <= last ==> k in store.tables.turns
      modifies this
      ensures Valid() && FreshTurns(View(), first, last)
    {
      hide ServerInv, BuildsStoredTurns, TurnIDs, Tagged, EventsOfTurn, Materialized, Fingerprint, PairsFor, FreshTurns;
      hide RunServer, RowsNow, PairsNow;
      assert FreshTurns(View(), first, first - 1) by {
        NoTurnsFresh(View(), first);
      }
      for k := first to last + 1
        invariant Valid() && FreshTurns(View(), first, k - 1)
      {
        ghost var was := View();
        var fingerprint := TurnFingerprint(p, k, store.tables.candidates);
        if k !in stored || stored[k].version != version || stored[k].through < store.tables.turns[k].lastEventID
           || stored[k].fingerprint != fingerprint {
          MaterializeStoredTurn(k, p);
        }
        OneTurnMoreFresh(was, View(), first, k);
      }
    }

    /** The window's contents and, in one read, all of its entries. */
    method ReadWindow(first: nat, last: nat) returns (window: seq<Built>, entries: seq<Entry>)
      requires first <= last && forall k :: first <= k <= last ==> k in stored
      ensures window == WindowContents(View(), first, last) && HoldsEntriesOf(entries, window)
    {
      window, entries := [], [];
      for k := first to last + 1
        invariant |window| == k - first && forall i :: 0 <= i < |window| ==> window[i] == stored[first + i].content
        invariant HoldsEntriesOf(entries, window)
      {
        HoldsOneMore(entries, window, stored[k].content);
        window := window + [stored[k].content];
        entries := entries + stored[k].content.entries;
      }
    }

    /** storedTail, payloads full or preview, with the validator of the session it was read from. */
    method StoredTail(limit: int, before: int, full: bool) returns (model: Model, maxEventID: nat, eventCount: nat)
      requires Valid()
      modifies this, store
      ensures maxEventID == NewestID(store.log) && eventCount == |store.log|
      ensures Valid() && store.log == old(store.log) && Current(store.View())
      ensures var page := PageOf(OwnRules, store.log, limit, before);
              if page.last < page.first then model == Model([], map[], page.more, None, map[])
              else Answers(View(), page, full, model)
    {
      hide ServerInv, BuildsStoredTurns, TurnIDs, Tagged, IndexOf, WindowOf, Answers, PairsFor, FreshTurns;
      hide WindowContents, HoldsEntriesOf, Assembled, BodiesOf;
      IndexTurns();
      var turnCount := store.row.value.state.nextTurnSeq - 1;
      CurrentWindow(build, View(), limit, before);
      var page := WindowOf(store.tables, turnCount, limit, before);
      model := Model([], map[], page.more, None, map[]);
      if page.first <= page.last {
        var p := ReadSessionPairs(store.tables.candidates);
        FreshenTurns(page.first, page.last, p);
        FreshTurnsAreStored(View(), page.first, page.last);
        var window, entries := ReadWindow(page.first, page.last);
        model := AssembleStoredPage(window, entries, page.more);
        AssembledEntries(window, entries, page.more);
        if full {
          PageBodies(build, View(), page, entries);
          var expanded := ExpandToolPayloads(model.entries, BodiesOf(store.log));
          model := model.(entries := expanded.value);
        }
        PageAnswers(build, View(), page, entries, full, model);
      }
      IndexIsExact(build, View());
      maxEventID, eventCount := store.Validator();
    }
  }

  /** What a reader is owed: every turn of the page fresh, and the page - its payloads expanded, when they
      are previews - the projection of the build of its events in event order, unless some prose narrates
      only for a tool call of another turn. */
  ghost predicate Answers(s: Server<Built>, page: Page, full: bool, model: Model) {
    && 1 <= page.first <= page.last <= |TurnIDs(RowsNow(s.session))|
    && FreshTurns(s, page.first, page.last)
    && var rows, pairs := PageRowsNow(s.session, page.first, page.last), PairsNow(s.session);
       && DistinctIDs(rows) && model.entries.Keys <= RowsByID(rows).Keys
       && ((if full then model else FullPage(model, rows)) == Projected(ModelOf(rows, pairs, page.more))
           <==> NarrationStaysInTurns(rows, pairs))
  }

  // ---------------------------------------------------------------- facts the methods use

  lemma IndexIsExact(build: Build<Built>, s: Server<Built>)
    requires ServerInv(build, s)
    ensures CurrentIsExact(s.session)
  {
  }

  lemma NoTurnsFresh(s: Server<Built>, first: nat)
    requires 1 <= first
    ensures FreshTurns(s, first, first - 1)
  {
  }

  lemma FreshTurnsAreStored(s: Server<Built>, first: nat, last: nat)
    requires FreshTurns(s, first, last)
    ensures forall k :: first <= k <= last ==> k in s.stored
  {
  }

  lemma OneTurnMoreFresh(s: Server<Built>, s': Server<Built>, first: nat, k: nat)
    requires 1 <= first <= k && FreshTurns(s, first, k - 1) && k in s'.session.tables.turns
    requires k in s'.stored && !Stale(s', k)
    requires s' == s || s' == s.(stored := s.stored[k := s'.stored[k]])
    ensures FreshTurns(s', first, k)
  {
    hide Fingerprint;
    forall j | first <= j < k ensures j in s'.stored && j in s'.session.tables.turns && !Stale(s', j) {
      assert !Stale(s, j);
    }
  }

  lemma AssembledEntries(window: seq<Built>, entries: seq<Entry>, more: bool)
    ensures Assembled(window, entries, more).entries == EntryMap(entries)
  {
  }

  lemma HoldsOneMore(entries: seq<Entry>, window: seq<Built>, turn: Built)
    requires HoldsEntriesOf(entries, window)
    ensures HoldsEntriesOf(entries + turn.entries, window + [turn])
  {
    var all := window + [turn];
    forall e ensures e in entries + turn.entries <==> exists i :: 0 <= i < |all| && e in all[i].entries {
      if e in entries {
        var i :| 0 <= i < |window| && e in window[i].entries;
        assert all[i] == window[i];
      }
      assert all[|window|] == turn;
      if i :| 0 <= i < |all| && e in all[i].entries {
        if i < |window| {
          assert all[i] == window[i];
        }
      }
    }
  }

  /** The window a current index gives. */
  lemma CurrentWindow(build: Build<Built>, s: Server<Built>, limit: int, before: int)
    requires ServerInv(build, s) && Current(s.session)
    ensures var n, page := |TurnIDs(RowsNow(s.session))|, PageOf(RulesOf(s.session), s.session.log, limit, before);
            && s.session.row.value.state.nextTurnSeq == n + 1
            && WindowOf(s.session.tables, n, limit, before) == page && 1 <= page.first && page.last <= n
            && forall k :: 1 <= k <= page.last ==> k in s.session.tables.turns
    ensures RisingCandidates(s.session.tables.candidates)
  {
    hide TurnIDs, Tagged, Top, StartOf, TurnsOf, EventTurnsOf, CandidatesOf;
    var rules, log := RulesOf(s.session), s.session.log;
    CurrentTables(s.session);
    TurnNumbering(rules, log);
    TaggedRising(rules, log);
    CandidatesRise(rules, Tagged(rules, log));
    PageShape(rules, log, limit, before);
    if Top(IndexOf(rules, log), |TurnIDs(Tagged(rules, log))|, before).Some? {
      WindowHolds(IndexOf(rules, log), |TurnIDs(Tagged(rules, log))|, limit, before);
    }
  }

  lemma {:induction false} BodiesOfLog(log: seq<EventRow>)
    requires Ascending(log)
    ensures forall e :: e in log ==> e.id in BodiesOf(log) && BodiesOf(log)[e.id] == e
  {
    if log != [] {
      var init, last := log[..|log| - 1], log[|log| - 1];
      BodiesOfLog(init);
      forall e | e in log ensures e.id in BodiesOf(log) && BodiesOf(log)[e.id] == e {
        var i :| 0 <= i < |log| && log[i] == e;
        if i < |log| - 1 {
          assert init[i] == e;
        }
      }
    }
  }

  /** Each row of a page is an event of the log. */
  lemma PageRowsInLog(rules: Rules, log: seq<EventRow>, first: nat, last: nat)
    requires Ascending(log) && 1 <= first <= last <= |TurnIDs(Tagged(rules, log))| && DistinctIDs(PageRows(rules, log, first, last))
    ensures forall id :: id in RowsByID(PageRows(rules, log, first, last)) ==>
              id in BodiesOf(log) && BodiesOf(log)[id] == RowsByID(PageRows(rules, log, first, last))[id]
  {
    hide PageRows, TurnIDs, Tagged, BodiesOf, DistinctIDs;
    var rows := PageRows(rules, log, first, last);
    PageRowBodies(rules, log, first, last);
    forall id | id in RowsByID(rows) ensures id in BodiesOf(log) && BodiesOf(log)[id] == RowsByID(rows)[id] {
      var b :| b in rows && b.row.id == id && b.row == RowsByID(rows)[id];
    }
  }

  lemma PageBodies(build: Build<Built>, s: Server<Built>, page: Page, entries: seq<Entry>)
    requires ServerInv(build, s) && Current(s.session) && BuildsStoredTurns(build, s.version)
    requires 1 <= page.first <= page.last && FreshTurns(s, page.first, page.last)
    requires HoldsEntriesOf(entries, WindowContents(s, page.first, page.last))
    ensures page.last <= |TurnIDs(RowsNow(s.session))|
    ensures DistinctIDs(PageRowsNow(s.session, page.first, page.last))
    ensures var rows, bodies := PageRowsNow(s.session, page.first, page.last), BodiesOf(s.session.log);
            && EntryMap(entries).Keys <= RowsByID(rows).Keys && EntryMap(entries).Keys <= bodies.Keys
            && (map id | id in EntryMap(entries) :: Expanded(EntryMap(entries)[id], bodies[id])) == FullEntries(EntryMap(entries), rows)
            && (forall id :: id in EntryMap(entries) ==> CanExpand(EntryMap(entries)[id], id, bodies))
  {
    hide TurnIDs, Tagged, ServerInv, BuildsStoredTurns, PageRows, HoldsEntriesOf, WindowContents, EntryMap, BodiesOf, RowsByID;
    hide Expanded, DistinctIDs, NarrationStaysInTurns, FullPage, Assembled, Projected, ModelOf, PairsOf, CandidatesOf, FreshTurns;
    ServedPageIsRebuiltPageIff(build, s, page.first, page.last, entries, page.more);
    SessionAscends(build, s);
    PageRowsInLog(RulesOf(s.session), s.session.log, page.first, page.last);
    FreshWindow(build, s, page.first, page.last);
    PageRowBodies(RulesOf(s.session), s.session.log, page.first, page.last);
    StoredPageExpands(PageRowsNow(s.session, page.first, page.last), PairsNow(s.session), entries, BodiesOf(s.session.log));
  }

  lemma PageRowBodies(rules: Rules, log: seq<EventRow>, first: nat, last: nat)
    requires Ascending(log) && 1 <= first <= last <= |TurnIDs(Tagged(rules, log))|
    ensures forall b :: b in PageRows(rules, log, first, last) ==> b.row.id in BodiesOf(log) && BodiesOf(log)[b.row.id] == b.row
  {
    hide Keep, TurnIDs, Tagged, BodiesOf;
    KeepMembers(Tagged(rules, log), WindowIDs(rules, log, first, last));
    BodiesOfLog(log);
    forall b | b in PageRows(rules, log, first, last) ensures b.row.id in BodiesOf(log) && BodiesOf(log)[b.row.id] == b.row {
      var i :| 0 <= i < |log| && Tagged(rules, log)[i] == b;
      TaggedAt(rules, log, i);
    }
  }

  lemma PageAnswers(build: Build<Built>, s: Server<Built>, page: Page, entries: seq<Entry>, full: bool, model: Model)
    requires ServerInv(build, s) && Current(s.session) && BuildsStoredTurns(build, s.version)
    requires 1 <= page.first <= page.last && FreshTurns(s, page.first, page.last)
    requires HoldsEntriesOf(entries, WindowContents(s, page.first, page.last))
    requires var assembled, bodies := Assembled(WindowContents(s, page.first, page.last), entries, page.more), BodiesOf(s.session.log);
             if full then
               && EntryMap(entries).Keys <= bodies.Keys
               && model == assembled.(entries := map id | id in EntryMap(entries) :: Expanded(EntryMap(entries)[id], bodies[id]))
             else model == assembled
    ensures Answers(s, page, full, model)
  {
    hide TurnIDs, Tagged, ServerInv, BuildsStoredTurns, PageRows, HoldsEntriesOf, WindowContents, EntryMap, BodiesOf, RowsByID;
    hide Expanded, DistinctIDs, NarrationStaysInTurns, Projected, ModelOf, PairsOf, CandidatesOf, FreshTurns;
    hide TurnsIn, UnionGroups, SourcesIn, AggregatesOf;
    ServedPageIsRebuiltPageIff(build, s, page.first, page.last, entries, page.more);
    if full {
      PageBodies(build, s, page, entries);
    }
  }

  /** On a current session reading a turn through the index gives the turn's events. */
  lemma TurnRead(build: Build<Built>, s: Server<Built>, k: nat)
    requires ServerInv(build, s) && Current(s.session) && k in s.session.tables.turns
    ensures var rows := RowsNow(s.session);
            && 1 <= k <= |TurnIDs(rows)|
            && SelectTurnEvents(s.session.tables, s.session.log, k, s.session.tables.turns[k].turnID) == EventsOfTurn(rows, k)
            && OneTurnRows(EventsOfTurn(rows, k))
  {
    hide TurnIDs, Tagged, EventsOfTurn, SelectTurnEvents;
    TurnReadNow(s.session, k);
    var events := EventsOfTurn(RowsNow(s.session), k);
    assert events[0] in events;
  }

  /** One materialization from a server with none under way. */
  lemma AloneMaterialization(build: Build<Built>, s: Server<Built>, k: nat)
    requires ServerInv(build, s) && Current(s.session) && k in s.session.tables.turns && s.working == map[]
    ensures 1 <= k <= |TurnIDs(RowsNow(s.session))|
    ensures var turn := Materialized(build, s.version, ReadNow(s.session, k));
            && RunServer(build, s, Materialization(0, k)) == s.(stored := s.stored[k := turn])
            && turn.content == build(s.version, EventsOfTurn(RowsNow(s.session), k), PairsNow(s.session))
  {
    hide ServerInv, TurnIDs, Tagged, EventsOfTurn, PairsOf, CandidatesOf, RunServer, Materialized, Stale;
    MaterializationStores(build, s, 0, k);
    var empty: map<nat, Work> := map[];
    assert empty - {0} == empty;
  }

  lemma MaterializedIs(build: Build<Built>, s: Server<Built>, k: nat, p: SessionPairs, turn: Stored<Built>)
    requires ServerInv(build, s) && Current(s.session) && BuildsStoredTurns(build, s.version)
    requires PairsFor(s.session.tables.candidates, p)
    requires 1 <= k <= |TurnIDs(RowsNow(s.session))| && OneTurnRows(EventsOfTurn(RowsNow(s.session), k))
    requires var rows := EventsOfTurn(RowsNow(s.session), k);
             turn == Stored(s.version, rows[|rows| - 1].row.id, Fingerprint(s.session.tables.candidates, k), StoredTurn(rows, p.pairs))
    ensures turn == Materialized(build, s.version, ReadNow(s.session, k))
  {
    hide ServerInv, TurnIDs, Tagged, Keep, StoredTurn, Fingerprint, TurnCandidates, PairsOf;
  }

  lemma ReadNowIsGood(s: Session, k: nat)
    requires Inv(s) && Current(s) && 1 <= k <= |TurnIDs(RowsNow(s))|
    ensures GoodWork(RulesOf(s), s.log, ReadNow(s, k))
    ensures k in s.tables.turns ==> s.tables.turns[k].lastEventID == ReadNow(s, k).events[|ReadNow(s, k).events| - 1].row.id
  {
    hide Inv, TurnIDs, Tagged, Keep, EventTurnsOf;
    var rules, log := RulesOf(s), s.log;
    CurrentTables(s);
    assert log[..|log|] == log;
    assert s.tables.candidates == CandidatesAt(rules, log, |log|);
    assert HadTurn(rules, log, |log|, k);
    assert EventsOfTurn(Tagged(rules, log), k) == EventsAt(rules, log, |log|, k);
  }

  /** Storing what was just read leaves the turn fresh and the cache sound. */
  lemma MaterializedKeepsInv(build: Build<Built>, s: Server<Built>, k: nat)
    requires ServerInv(build, s) && Current(s.session) && k in s.session.tables.turns && s.working == map[]
    requires 1 <= k <= |TurnIDs(RowsNow(s.session))|
    ensures var s' := s.(stored := s.stored[k := Materialized(build, s.version, ReadNow(s.session, k))]);
            ServerInv(build, s') && !Stale(s', k)
  {
    hide Inv, TurnIDs, Tagged, Keep, PairsOf, TurnCandidates, FingerprintText, EventsOfTurn, GoodStored, GoodWork;
    ReadNowIsGood(s.session, k);
    MaterializedIsGood(RulesOf(s.session), build, s.session.log, s.version, ReadNow(s.session, k));
  }
}
