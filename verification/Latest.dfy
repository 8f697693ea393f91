/** Aggregates across turns: taking the largest event id over the turns' sources is the last value over
    the page's events in id order, however the turns interleave. */
module Latest {
  import opened Options
  import opened Events
  import opened TurnRule
  import opened TurnIndex
  import opened TurnModel

  /** The last value some field took, with the event it came from. */
  datatype Reading<T> = NoReading | Reading(id: nat, value: T)

  function LastReading<T>(rows: seq<TurnEvent>, field: EventRow -> Option<T>): Reading<T> {
    if rows == [] then NoReading
    else
      var last := rows[|rows| - 1].row;
      match field(last)
      case Some(v) => Reading(last.id, v)
      case None => LastReading(rows[..|rows| - 1], field)
  }

  function Later<T>(a: Reading<T>, b: Reading<T>): Reading<T> {
    if b.NoReading? then a else if a.NoReading? || b.id > a.id then b else a
  }

  function SpendOf(row: EventRow): Option<Spend> {
    if row.body.Some? && row.body.value.typ == APISpendTotal then row.body.value.apiSpendTotal else None
  }

  function CostOf(row: EventRow): Option<real> {
    if row.body.Some? && row.body.value.typ == SessionCost then row.body.value.sessionCost else None
  }

  function ContextOf(row: EventRow): Option<Usage> {
    if row.body.Some? then ContextFromEvent(row.body.value) else None
  }

  function ReadingID<T>(r: Reading<T>): nat {
    if r.NoReading? then 0 else r.id
  }

  function ReadingValue<T>(r: Reading<T>): Option<T> {
    if r.NoReading? then None else Some(r.value)
  }

  function FromReadings(spend: Reading<Spend>, cost: Reading<real>, context: Reading<Usage>): AggregateSources {
    AggregateSources(ReadingID(spend), ReadingValue(spend), ReadingID(cost), ReadingValue(cost), ReadingID(context),
                     if context.NoReading? then 0 else context.value.contextTokens,
                     if context.NoReading? then 0 else context.value.contextLimit)
  }

  lemma {:induction false} SourcesAreLastReadings(rows: seq<TurnEvent>)
    ensures SourcesOf(rows) ==
            FromReadings(LastReading(rows, SpendOf), LastReading(rows, CostOf), LastReading(rows, ContextOf))
  {
    if rows != [] {
      SourcesAreLastReadings(rows[..|rows| - 1]);
    }
  }

  // ---------------------------------------------------------------- the merge

  /** What assembleStoredPage does with one turn's sources. */
  function MergeSources(latest: AggregateSources, s: AggregateSources): AggregateSources {
    var l1 := if s.spend.Some? && s.spendEventID > latest.spendEventID
              then latest.(spendEventID := s.spendEventID, spend := s.spend) else latest;
    var l2 := if s.cost.Some? && s.costEventID > latest.costEventID
              then l1.(costEventID := s.costEventID, cost := s.cost) else l1;
    if s.contextEventID > latest.contextEventID
    then l2.(contextEventID := s.contextEventID, contextTokens := s.contextTokens, contextLimit := s.contextLimit) else l2
  }

  function MergeAll(sources: seq<AggregateSources>): AggregateSources {
    if sources == [] then NoSources else MergeSources(MergeAll(sources[..|sources| - 1]), sources[|sources| - 1])
  }

  ghost predicate PositiveID<T>(r: Reading<T>) {
    r.Reading? ==> r.id > 0
  }

  lemma MergeIsLater(s: Reading<Spend>, c: Reading<real>, x: Reading<Usage>, s': Reading<Spend>, c': Reading<real>, x': Reading<Usage>)
    requires PositiveID(s) && PositiveID(c) && PositiveID(x) && PositiveID(s') && PositiveID(c') && PositiveID(x')
    ensures MergeSources(FromReadings(s, c, x), FromReadings(s', c', x')) == FromReadings(Later(s, s'), Later(c, c'), Later(x, x'))
    ensures PositiveID(Later(s, s')) && PositiveID(Later(c, c')) && PositiveID(Later(x, x'))
  {
  }

  /** The readings of the first n turns of some rows, merged turn by turn. */
  function MergedReading<T>(rows: seq<TurnEvent>, n: nat, field: EventRow -> Option<T>): Reading<T>
    requires n <= |TurnIDs(rows)|
  {
    if n == 0 then NoReading
    else Later(MergedReading(rows, n - 1, field), LastReading(EventsOfTurn(rows, n), field))
  }

  /** The reading of the newest event with the field, among the rows of some turns. */
  ghost predicate NewestAmong<T>(r: Reading<T>, rows: seq<TurnEvent>, ids: set<string>, field: EventRow -> Option<T>) {
    && (r.NoReading? ==> forall b :: b in rows && b.turnID in ids ==> field(b.row).None?)
    && (r.Reading? ==> exists b :: b in rows && b.turnID in ids && b.row.id == r.id && field(b.row) == Some(r.value))
    && (r.Reading? ==> forall b :: b in rows && b.turnID in ids && field(b.row).Some? ==> b.row.id <= r.id)
  }

  lemma NewestUnique<T>(r: Reading<T>, r': Reading<T>, rows: seq<TurnEvent>, ids: set<string>, field: EventRow -> Option<T>)
    requires Rising(rows) && NewestAmong(r, rows, ids, field) && NewestAmong(r', rows, ids, field)
    ensures r == r'
  {
    if r.Reading? && r'.Reading? {
      var b :| b in rows && b.turnID in ids && b.row.id == r.id && field(b.row) == Some(r.value);
      var c :| c in rows && c.turnID in ids && c.row.id == r'.id && field(c.row) == Some(r'.value);
      var i :| 0 <= i < |rows| && rows[i] == b;
      var j :| 0 <= j < |rows| && rows[j] == c;
      assert i == j;
    }
  }

  lemma {:induction false} LastIsNewest<T>(rows: seq<TurnEvent>, ids: set<string>, field: EventRow -> Option<T>)
    requires Rising(rows) && forall b :: b in rows ==> b.turnID in ids
    ensures NewestAmong(LastReading(rows, field), rows, ids, field)
    ensures PositiveID(LastReading(rows, field))
  {
    if rows != [] {
      var init, last := rows[..|rows| - 1], rows[|rows| - 1];
      assert rows == init + [last];
      assert last in rows;
      LastIsNewest(init, ids, field);
      OlderRows(rows);
    }
  }

  lemma LaterIsNewest<T>(a: Reading<T>, b: Reading<T>, rows: seq<TurnEvent>, ids: set<string>, id: string, field: EventRow -> Option<T>)
    requires NewestAmong(a, rows, ids, field) && NewestAmong(b, rows, {id}, field)
    ensures NewestAmong(Later(a, b), rows, ids + {id}, field)
  {
  }

  /** The first n turn ids, as a set. */
  function FirstIDs(rows: seq<TurnEvent>, n: nat): set<string>
    requires n <= |TurnIDs(rows)|
  {
    set i | 0 <= i < n :: TurnIDs(rows)[i]
  }

  lemma {:induction false} MergedIsNewest<T>(rows: seq<TurnEvent>, n: nat, field: EventRow -> Option<T>)
    requires Rising(rows) && n <= |TurnIDs(rows)|
    ensures NewestAmong(MergedReading(rows, n, field), rows, FirstIDs(rows, n), field)
    ensures PositiveID(MergedReading(rows, n, field))
  {
    hide TurnIDs, NewestAmong, Keep;
    if n == 0 {
      NothingIsNewest(rows, field);
      assert FirstIDs(rows, 0) == {};
    } else {
      MergedIsNewest(rows, n - 1, field);
      TurnReadingIsNewest(rows, n, field);
      LaterIsNewest(MergedReading(rows, n - 1, field), LastReading(EventsOfTurn(rows, n), field), rows, FirstIDs(rows, n - 1),
                    TurnIDs(rows)[n - 1], field);
      assert FirstIDs(rows, n) == FirstIDs(rows, n - 1) + {TurnIDs(rows)[n - 1]};
    }
  }

  lemma NothingIsNewest<T>(rows: seq<TurnEvent>, field: EventRow -> Option<T>)
    ensures NewestAmong(NoReading, rows, {}, field)
  {
  }

  lemma TurnReadingIsNewest<T>(rows: seq<TurnEvent>, k: nat, field: EventRow -> Option<T>)
    requires Rising(rows) && 1 <= k <= |TurnIDs(rows)|
    ensures NewestAmong(LastReading(EventsOfTurn(rows, k), field), rows, {TurnIDs(rows)[k - 1]}, field)
    ensures PositiveID(LastReading(EventsOfTurn(rows, k), field))
  {
    hide TurnIDs, Keep, LastReading;
    var id := TurnIDs(rows)[k - 1];
    KeepRising(rows, {id});
    KeepMembers(rows, {id});
    LastIsNewest(EventsOfTurn(rows, k), {id}, field);
  }

  /** For any one field and any division into turns: merging the turns gives the last value of all. */
  lemma MergedIsLast<T>(rows: seq<TurnEvent>, field: EventRow -> Option<T>)
    requires Rising(rows)
    ensures MergedReading(rows, |TurnIDs(rows)|, field) == LastReading(rows, field)
  {
    hide TurnIDs, LastReading, MergedReading, NewestAmong;
    var ids := FirstIDs(rows, |TurnIDs(rows)|);
    TurnIDsMembers(rows);
    forall b | b in rows ensures b.turnID in ids {
      var i :| 0 <= i < |TurnIDs(rows)| && TurnIDs(rows)[i] == b.turnID;
    }
    MergedIsNewest(rows, |TurnIDs(rows)|, field);
    LastIsNewest(rows, ids, field);
    NewestUnique(MergedReading(rows, |TurnIDs(rows)|, field), LastReading(rows, field), rows, ids, field);
  }

  function TurnSources(rows: seq<TurnEvent>, n: nat): (sources: seq<AggregateSources>)
    requires n <= |TurnIDs(rows)|
    ensures |sources| == n
  {
    seq(n, i requires 0 <= i < n => SourcesOf(EventsOfTurn(rows, i + 1)))
  }

  lemma {:induction false} MergeAllReadings(rows: seq<TurnEvent>, n: nat)
    requires Rising(rows) && n <= |TurnIDs(rows)|
    ensures MergeAll(TurnSources(rows, n)) ==
            FromReadings(MergedReading(rows, n, SpendOf), MergedReading(rows, n, CostOf), MergedReading(rows, n, ContextOf))
  {
    hide TurnIDs, Keep, LastReading, SourcesOf, EventsOfTurn, MergeSources, NewestAmong;
    if n > 0 {
      MergeAllReadings(rows, n - 1);
      assert TurnSources(rows, n)[..n - 1] == TurnSources(rows, n - 1);
      SourcesAreLastReadings(EventsOfTurn(rows, n));
      MergedIsNewest(rows, n - 1, SpendOf);
      MergedIsNewest(rows, n - 1, CostOf);
      MergedIsNewest(rows, n - 1, ContextOf);
      TurnReadingIsNewest(rows, n, SpendOf);
      TurnReadingIsNewest(rows, n, CostOf);
      TurnReadingIsNewest(rows, n, ContextOf);
      MergeIsLater(MergedReading(rows, n - 1, SpendOf), MergedReading(rows, n - 1, CostOf), MergedReading(rows, n - 1, ContextOf),
                   LastReading(EventsOfTurn(rows, n), SpendOf), LastReading(EventsOfTurn(rows, n), CostOf),
                   LastReading(EventsOfTurn(rows, n), ContextOf));
    }
  }

  /** Merging the turns' sources by event id gives the page's last-value-wins sources, for every division
      of the events into turns, interleaved ones included. */
  lemma MergedSourcesAreThePages(rows: seq<TurnEvent>)
    requires Rising(rows)
    ensures MergeAll(TurnSources(rows, |TurnIDs(rows)|)) == SourcesOf(rows)
  {
    hide TurnIDs, LastReading, MergedReading, SourcesOf, MergeAll, FromReadings, TurnSources;
    MergeAllReadings(rows, |TurnIDs(rows)|);
    MergedIsLast(rows, SpendOf);
    MergedIsLast(rows, CostOf);
    MergedIsLast(rows, ContextOf);
    SourcesAreLastReadings(rows);
  }
}
