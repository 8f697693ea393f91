/** From the cache to the page: what a reader gets from stored turns none of which needs materializing. */
module ServedPage {
  import opened Options
  import opened Events
  import opened TurnRule
  import opened IndexRules
  import opened TurnIndex
  import opened IndexFacts
  import opened IndexProtocol
  import opened Dedup
  import opened TurnModel
  import opened Composition
  import opened StoredPage
  import opened PageEquality
  import opened Cache
  import opened Freshness

  // ---------------------------------------------------------------- the builder the cache runs

  /** What a version of the rules must store: materializeStoredTurn's content, under this version. */
  function StoredTurn(rows: seq<TurnEvent>, pairs: Pairs): Built
    requires rows != [] && Rising(rows)
  {
    RisingIsDistinct(rows);
    StoredFor(rows, pairs)
  }

  ghost predicate BuildsStoredTurns(build: Build<Built>, version: int) {
    forall rows, pairs :: rows != [] && Rising(rows) ==> build(version, rows, pairs) == StoredTurn(rows, pairs)
  }

  lemma SameEntry(rows: seq<TurnEvent>, p: Pairs, q: Pairs, b: TurnEvent)
    requires SamePairsOn(rows, p, q) && b in rows
    ensures EntryOf(b, p) == EntryOf(b, q)
  {
    hide PlainEntry;
    assert TwinOf(p, b.row.id) == TwinOf(q, b.row.id) && (b.row.id in p <==> b.row.id in q);
  }

  lemma {:induction false} SameStoredEntries(all: seq<TurnEvent>, rows: seq<TurnEvent>, p: Pairs, q: Pairs)
    requires SamePairsOn(rows, p, q)
    ensures StoredEntries(all, rows, p) == StoredEntries(all, rows, q)
  {
    hide EntryOf, Promoted;
    if rows != [] {
      var init, last := rows[..|rows| - 1], rows[|rows| - 1];
      assert rows == init + [last];
      assert last in rows;
      assert SamePairsOn(init, p, q) by {
        assert forall b :: b in init ==> b in rows;
      }
      SameStoredEntries(all, init, p, q);
      SameEntry(rows, p, q, last);
    }
  }

  /** A stored turn depends only on the pairs of its own rows. */
  lemma StoredTurnIsLocal(rows: seq<TurnEvent>, p: Pairs, q: Pairs)
    requires rows != [] && Rising(rows) && SamePairsOn(rows, p, q)
    ensures StoredTurn(rows, p) == StoredTurn(rows, q)
  {
    hide EntryOf, Promoted, StoredEntries, SourcesOf, KeptOf, GroupsOf, SamePairsOn, Rising;
    RisingIsDistinct(rows);
    SameStoredEntries(rows, rows, p, q);
    forall b | b in rows ensures EntryOf(b, p) == EntryOf(b, q) {
      SameEntry(rows, p, q, b);
    }
    assert EntriesOf(rows, p) == EntriesOf(rows, q);
  }

  lemma BuilderIsLocal(build: Build<Built>, version: int)
    requires BuildsStoredTurns(build, version)
    ensures LooksOnlyAtItsRows(build, version)
  {
    hide StoredTurn, SamePairsOn, Rising;
    forall rows, p, q | rows != [] && Rising(rows) && SamePairsOn(rows, p, q)
      ensures build(version, rows, p) == build(version, rows, q)
    {
      StoredTurnIsLocal(rows, p, q);
    }
  }

  // ---------------------------------------------------------------- the rows of a window

  function SetOf(ids: seq<string>): set<string> {
    set id | id in ids
  }

  /** The turn ids of the turns first..last. */
  function WindowIDs(rules: Rules, log: seq<EventRow>, first: nat, last: nat): set<string>
    requires 1 <= first <= last <= |TurnIDs(Tagged(rules, log))|
  {
    SetOf(TurnIDs(Tagged(rules, log))[first - 1..last])
  }

  /** Every event of the turns first..last, in event order. */
  function PageRows(rules: Rules, log: seq<EventRow>, first: nat, last: nat): seq<TurnEvent>
    requires 1 <= first <= last <= |TurnIDs(Tagged(rules, log))|
  {
    Keep(Tagged(rules, log), WindowIDs(rules, log, first, last))
  }

  lemma {:induction false} OnlySlice(list: seq<string>, n: nat, first: nat, last: nat)
    requires 1 <= first <= last <= |list| && n <= |list|
    requires forall i, j :: 0 <= i < j < |list| ==> list[i] != list[j]
    ensures Only(list[..n], SetOf(list[first - 1..last])) ==
            if n < first then [] else list[first - 1..if n < last then n else last]
  {
    var ids := SetOf(list[first - 1..last]);
    if n > 0 {
      OnlySlice(list, n - 1, first, last);
      assert list[..n][..n - 1] == list[..n - 1];
      if first <= n <= last {
        assert list[first - 1..last][n - first] == list[n - 1];
      }
      assert list[n - 1] in ids <==> first <= n <= last;
    }
  }

  /** A page's turns, taken from its rows, are the window's turns in number order. */
  lemma PageTurnIDs(rules: Rules, log: seq<EventRow>, first: nat, last: nat)
    requires Ascending(log) && 1 <= first <= last <= |TurnIDs(Tagged(rules, log))|
    ensures Rising(PageRows(rules, log, first, last))
    ensures TurnIDs(PageRows(rules, log, first, last)) == TurnIDs(Tagged(rules, log))[first - 1..last]
  {
    hide TurnIDs, Keep, Tagged, Only;
    var rows, ids, list := Tagged(rules, log), WindowIDs(rules, log, first, last), TurnIDs(Tagged(rules, log));
    TaggedRising(rules, log);
    KeepRising(rows, ids);
    TurnIDsOfKeep(rows, ids);
    TurnIDsDistinct(rows);
    OnlySlice(list, |list|, first, last);
    assert list[..|list|] == list;
  }

  /** Each turn of the page has all of its events. */
  lemma PageTurn(rules: Rules, log: seq<EventRow>, first: nat, last: nat, k: nat)
    requires Ascending(log) && 1 <= first <= k <= last <= |TurnIDs(Tagged(rules, log))|
    ensures |TurnIDs(PageRows(rules, log, first, last))| == last + 1 - first
    ensures EventsOfTurn(PageRows(rules, log, first, last), k + 1 - first) == EventsOfTurn(Tagged(rules, log), k)
  {
    hide TurnIDs, Keep, Tagged, Rising;
    var rows, ids, list := Tagged(rules, log), WindowIDs(rules, log, first, last), TurnIDs(Tagged(rules, log));
    PageTurnIDs(rules, log, first, last);
    var id := list[k - 1];
    assert list[first - 1..last][k - first] == id;
    KeepKeep(rows, ids, {id});
    assert ids * {id} == {id};
  }

  // ---------------------------------------------------------------- a session as it is now

  /** The session's events with their turns, under the rules at work. */
  function RowsNow(s: Session): seq<TurnEvent> {
    Tagged(RulesOf(s), s.log)
  }

  /** The session's dual-emit pairs. */
  function PairsNow(s: Session): Pairs {
    PairsOf(CandidatesOf(RulesOf(s), RowsNow(s)))
  }

  /** The events of the turns first..last, in event order. */
  function PageRowsNow(s: Session, first: nat, last: nat): seq<TurnEvent>
    requires 1 <= first <= last <= |TurnIDs(RowsNow(s))|
  {
    PageRows(RulesOf(s), s.log, first, last)
  }

  // ---------------------------------------------------------------- the page served

  /** Every turn of the window is in the index, is stored and does not need materializing. */
  ghost predicate FreshTurns(s: Server<Built>, first: nat, last: nat) {
    forall k :: first <= k <= last ==> k in s.stored && k in s.session.tables.turns && !Stale(s, k)
  }

  /** The contents of the stored turns first..last. */
  function WindowContents(s: Server<Built>, first: nat, last: nat): (window: seq<Built>)
    requires first <= last && forall k :: first <= k <= last ==> k in s.stored
    ensures |window| == last + 1 - first
  {
    seq(last + 1 - first, i requires 0 <= i < last + 1 - first => s.stored[first + i].content)
  }

  lemma SessionAscends(build: Build<Built>, s: Server<Built>)
    requires ServerInv(build, s)
    ensures Ascending(s.session.log)
  {
  }

  lemma FreshStoredTurn(build: Build<Built>, s: Server<Built>, k: nat)
    requires ServerInv(build, s) && Current(s.session) && BuildsStoredTurns(build, s.version)
    requires k in s.session.tables.turns && !Stale(s, k)
    ensures var rows := RowsNow(s.session);
            && 1 <= k <= |TurnIDs(rows)| && k in s.stored && Rising(EventsOfTurn(rows, k)) && EventsOfTurn(rows, k) != []
            && s.stored[k].content == StoredTurn(EventsOfTurn(rows, k), PairsOf(CandidatesOf(RulesOf(s.session), rows)))
  {
    hide TurnIDs, Tagged, Keep, CandidatesOf, PairsOf, ServerInv, StoredTurn, Fingerprint, LooksOnlyAtItsRows;
    BuilderIsLocal(build, s.version);
    FreshTurnIsExact(build, s, k);
    SessionAscends(build, s);
    TurnEventsRise(RulesOf(s.session), s.session.log, k);
  }

  /** One turn of a window, as stored and as built from the page's rows. */
  lemma FreshTurnOfPage(build: Build<Built>, s: Server<Built>, first: nat, last: nat, k: nat)
    requires ServerInv(build, s) && Current(s.session) && BuildsStoredTurns(build, s.version)
    requires 1 <= first <= k <= last <= |TurnIDs(RowsNow(s.session))| && FreshTurns(s, first, last)
    ensures var rows, pairs := PageRowsNow(s.session, first, last), PairsNow(s.session);
            && DistinctIDs(rows) && |TurnIDs(rows)| == last + 1 - first
            && s.stored[k].content == BuiltTurns(rows, pairs)[k - first]
  {
    hide TurnIDs, Tagged, Keep, CandidatesOf, PairsOf, ServerInv, StoredFor, BuildsStoredTurns, Stale, PageRows, Rising;
    hide DistinctIDs;
    SessionAscends(build, s);
    FreshStoredTurn(build, s, k);
    PageTurn(RulesOf(s.session), s.session.log, first, last, k);
    PageTurnIDs(RulesOf(s.session), s.session.log, first, last);
    RisingIsDistinct(PageRowsNow(s.session, first, last));
  }

  lemma LastTurnIsInLog(build: Build<Built>, s: Server<Built>, first: nat, last: nat)
    requires ServerInv(build, s) && Current(s.session) && BuildsStoredTurns(build, s.version)
    requires first <= last && FreshTurns(s, first, last)
    ensures last <= |TurnIDs(RowsNow(s.session))| && Ascending(s.session.log)
  {
    hide TurnIDs, Tagged, ServerInv, Stale, BuildsStoredTurns, Keep, Rising;
    FreshStoredTurn(build, s, last);
    SessionAscends(build, s);
  }

  lemma FreshWindow(build: Build<Built>, s: Server<Built>, first: nat, last: nat)
    requires ServerInv(build, s) && Current(s.session) && BuildsStoredTurns(build, s.version)
    requires 1 <= first <= last <= |TurnIDs(RowsNow(s.session))| && FreshTurns(s, first, last)
    ensures var rows, pairs := PageRowsNow(s.session, first, last), PairsNow(s.session);
            Rising(rows) && DistinctIDs(rows) && WindowContents(s, first, last) == BuiltTurns(rows, pairs)
  {
    hide TurnIDs, Tagged, Keep, CandidatesOf, PairsOf, ServerInv, BuiltTurns, BuildsStoredTurns, PageRows, Rising;
    hide DistinctIDs, Stale;
    SessionAscends(build, s);
    PageTurnIDs(RulesOf(s.session), s.session.log, first, last);
    var rows, pairs := PageRowsNow(s.session, first, last), PairsNow(s.session);
    RisingIsDistinct(rows);
    forall i | 0 <= i < last + 1 - first
      ensures |TurnIDs(rows)| == last + 1 - first && WindowContents(s, first, last)[i] == BuiltTurns(rows, pairs)[i]
    {
      FreshTurnOfPage(build, s, first, last, first + i);
    }
  }

  /** In every state the cache can be in: when no turn of a window of a current session needs
      materializing, the stored page with full payloads is the projection of the builder run over the
      window's events in event order with the session's pairs - if and only if no prose on the page is
      narration only by a tool call of another turn. */
  lemma ServedPageIsRebuiltPageIff(build: Build<Built>, s: Server<Built>, first: nat, last: nat, stored: seq<Entry>, more: bool)
    requires ServerInv(build, s) && Current(s.session) && BuildsStoredTurns(build, s.version)
    requires 1 <= first <= last && FreshTurns(s, first, last)
    requires HoldsEntriesOf(stored, WindowContents(s, first, last))
    ensures last <= |TurnIDs(RowsNow(s.session))|
    ensures var rows, pairs := PageRowsNow(s.session, first, last), PairsNow(s.session);
            && DistinctIDs(rows) && EntryMap(stored).Keys <= RowsByID(rows).Keys
            && (FullPage(Assembled(WindowContents(s, first, last), stored, more), rows) == Projected(ModelOf(rows, pairs, more))
                <==> NarrationStaysInTurns(rows, pairs))
  {
    hide TurnIDs, Tagged, Keep, CandidatesOf, PairsOf, ServerInv, BuildsStoredTurns, Stale, PageRows, HoldsEntriesOf;
    hide WindowContents, BuiltTurns, Projected, ModelOf, FullPage, Assembled, NarrationStaysInTurns, EntryMap, RowsByID;
    hide Rising, DistinctIDs;
    LastTurnIsInLog(build, s, first, last);
    FreshWindow(build, s, first, last);
    var rows, pairs := PageRowsNow(s.session, first, last), PairsNow(s.session);
    StoredPageIsRebuiltPageIff(rows, pairs, stored, more);
  }
}
