/** The raw page lists its events turn by turn, the stored page's aggregates go by event id. When the two
    agree, exactly. */
module RawOrder {
  import opened Options
  import opened Events
  import opened TurnRule
  import opened TurnIndex
  import opened TurnModel
  import opened Latest
  import opened RawPage

  /** The turns of some rows, as the raw page reads them: in turn order, each with its events. */
  function TurnsInOrder(rows: seq<TurnEvent>): (window: seq<seq<TurnEvent>>)
    ensures |window| == |TurnIDs(rows)|
  {
    seq(|TurnIDs(rows)|, i requires 0 <= i < |TurnIDs(rows)| => EventsOfTurn(rows, i + 1))
  }

  /** No turn is cut to its newest events. */
  predicate WithinCap(window: seq<seq<TurnEvent>>) {
    forall i :: 0 <= i < |window| ==> |window[i]| <= RAW_EVENT_CAP
  }

  // ---------------------------------------------------------------- the last reading of a raw page

  lemma {:induction false} LastOfConcat<T>(a: seq<TurnEvent>, b: seq<TurnEvent>, field: EventRow -> Option<T>)
    ensures LastReading(a + b, field) == if LastReading(b, field).Reading? then LastReading(b, field) else LastReading(a, field)
  {
    if b == [] {
      assert a + b == a;
    } else {
      var init := b[..|b| - 1];
      assert (a + b)[..|a + b| - 1] == a + init;
      LastOfConcat(a, init, field);
    }
  }

  /** The last reading of the highest-numbered turn, from a place on, that has one. */
  function HighestReading<T>(rows: seq<TurnEvent>, from: nat, field: EventRow -> Option<T>): Reading<T>
    requires from <= |TurnIDs(rows)|
    decreases |TurnIDs(rows)| - from
  {
    if from == |TurnIDs(rows)| then NoReading
    else
      var later := HighestReading(rows, from + 1, field);
      if later.Reading? then later else LastReading(EventsOfTurn(rows, from + 1), field)
  }

  lemma {:induction false} RawReadingIsTheHighest<T>(rows: seq<TurnEvent>, from: nat, field: EventRow -> Option<T>)
    requires from <= |TurnIDs(rows)| && WithinCap(TurnsInOrder(rows))
    ensures LastReading(RowsFrom(TurnsInOrder(rows), from), field) == HighestReading(rows, from, field)
    decreases |TurnIDs(rows)| - from
  {
    hide TurnIDs, EventsOfTurn, LastReading;
    var window := TurnsInOrder(rows);
    if from < |window| {
      RawReadingIsTheHighest(rows, from + 1, field);
      LastOfConcat(window[from], RowsFrom(window, from + 1), field);
    } else {
      NothingRead(field);
    }
  }

  lemma NothingRead<T>(field: EventRow -> Option<T>)
    ensures LastReading([], field) == NoReading
  {
  }

  /** Turn k has the last reading, and no turn above it any. */
  ghost predicate TopReading<T>(rows: seq<TurnEvent>, k: nat, r: Reading<T>, field: EventRow -> Option<T>) {
    && 1 <= k <= |TurnIDs(rows)| && r.Reading? && r == LastReading(EventsOfTurn(rows, k), field)
    && forall j :: k < j <= |TurnIDs(rows)| ==> LastReading(EventsOfTurn(rows, j), field).NoReading?
  }

  lemma {:induction false} HighestIsTop<T>(rows: seq<TurnEvent>, from: nat, field: EventRow -> Option<T>)
    requires from <= |TurnIDs(rows)|
    ensures var r := HighestReading(rows, from, field);
            && (r.Reading? ==> exists k :: from < k && TopReading(rows, k, r, field))
            && (r.NoReading? ==> forall j :: from < j <= |TurnIDs(rows)| ==> LastReading(EventsOfTurn(rows, j), field).NoReading?)
    decreases |TurnIDs(rows)| - from
  {
    hide TurnIDs, EventsOfTurn, LastReading;
    if from < |TurnIDs(rows)| {
      HighestIsTop(rows, from + 1, field);
      var r := LastReading(EventsOfTurn(rows, from + 1), field);
      if HighestReading(rows, from + 1, field).NoReading? && r.Reading? {
        assert TopReading(rows, from + 1, r, field);
      }
    }
  }

  // ---------------------------------------------------------------- against the newest event

  /** The number of a row's turn. */
  function TurnNumber(rows: seq<TurnEvent>, b: TurnEvent): nat {
    SeqOf(TurnIDs(rows), b.turnID)
  }

  predicate Has<T>(rows: seq<TurnEvent>, b: TurnEvent, field: EventRow -> Option<T>) {
    b in rows && field(b.row).Some?
  }

  ghost predicate IsNewest<T>(rows: seq<TurnEvent>, b: TurnEvent, field: EventRow -> Option<T>) {
    Has(rows, b, field) && forall c :: Has(rows, c, field) ==> c.row.id <= b.row.id
  }

  /** The newest row with the field is in the highest-numbered turn with such a row. */
  ghost predicate NewestInTopTurn<T>(rows: seq<TurnEvent>, field: EventRow -> Option<T>) {
    forall b, c :: IsNewest(rows, b, field) && Has(rows, c, field) ==> TurnNumber(rows, c) <= TurnNumber(rows, b)
  }

  lemma SameIDSameRow(rows: seq<TurnEvent>, b: TurnEvent, c: TurnEvent)
    requires Rising(rows) && b in rows && c in rows
    ensures b.row.id == c.row.id ==> b == c
  {
    var i :| 0 <= i < |rows| && rows[i] == b;
    var j :| 0 <= j < |rows| && rows[j] == c;
  }

  /** The last reading of all rows is that of their newest row with the field. */
  lemma LastReadingIsNewest<T>(rows: seq<TurnEvent>, field: EventRow -> Option<T>) returns (b: Option<TurnEvent>)
    requires Rising(rows)
    ensures b.Some? <==> LastReading(rows, field).Reading?
    ensures b.Some? ==> IsNewest(rows, b.value, field) && LastReading(rows, field) == Reading(b.value.row.id, field(b.value.row).value)
    ensures b.None? ==> forall c :: !Has(rows, c, field)
  {
    hide LastReading, Rising;
    var ids := set c | c in rows :: c.turnID;
    LastIsNewest(rows, ids, field);
    var r := LastReading(rows, field);
    if r.Reading? {
      var c :| c in rows && c.turnID in ids && c.row.id == r.id && field(c.row) == Some(r.value);
      b := Some(c);
    } else {
      b := None;
    }
  }

  /** The last reading of a turn is that of the turn's newest row with the field. */
  lemma TurnReading<T>(rows: seq<TurnEvent>, k: nat, field: EventRow -> Option<T>) returns (b: Option<TurnEvent>)
    requires Rising(rows) && 1 <= k <= |TurnIDs(rows)|
    ensures var r := LastReading(EventsOfTurn(rows, k), field);
            && (b.Some? <==> r.Reading?)
            && (b.Some? ==> && Has(rows, b.value, field) && TurnNumber(rows, b.value) == k
                            && r == Reading(b.value.row.id, field(b.value.row).value))
    ensures forall c :: Has(rows, c, field) && TurnNumber(rows, c) == k ==> b.Some? && c.row.id <= b.value.row.id
  {
    hide TurnIDs, LastReading, Rising, Keep;
    var id := TurnIDs(rows)[k - 1];
    KeepRising(rows, {id});
    KeepMembers(rows, {id});
    TurnIDsDistinct(rows);
    SeqOfUnique(TurnIDs(rows), k - 1);
    b := LastReadingIsNewest(EventsOfTurn(rows, k), field);
    forall c | Has(rows, c, field) && TurnNumber(rows, c) == k ensures Has(EventsOfTurn(rows, k), c, field) {
    }
  }

  lemma NumberOfRow(rows: seq<TurnEvent>, b: TurnEvent)
    requires b in rows
    ensures 1 <= TurnNumber(rows, b) <= |TurnIDs(rows)|
  {
    TurnIDsMembers(rows);
  }

  /** With whole turns, the last value a raw page shows of a field is the newest one if and only if the newest
      event with the field is in the highest-numbered turn that has such an event. */
  lemma RawReadingIsNewestIff<T>(rows: seq<TurnEvent>, field: EventRow -> Option<T>)
    requires Rising(rows) && WithinCap(TurnsInOrder(rows))
    ensures LastReading(RowsFrom(TurnsInOrder(rows), 0), field) == LastReading(rows, field) <==> NewestInTopTurn(rows, field)
  {
    hide TurnIDs, LastReading, HighestReading, TurnNumber, EventsOfTurn, Rising, RowsFrom, WithinCap;
    RawReadingIsTheHighest(rows, 0, field);
    HighestIsTop(rows, 0, field);
    var newest := LastReadingIsNewest(rows, field);
    var raw := HighestReading(rows, 0, field);
    if newest.Some? {
      var b := newest.value;
      NumberOfRow(rows, b);
      var own := TurnReading(rows, TurnNumber(rows, b), field);
      assert Has(rows, b, field);
      var k :| 0 < k && TopReading(rows, k, raw, field);
      TopAgainstNewest(rows, b, k, raw, field);
    } else {
      NoReadingAnywhere(rows, field);
    }
  }

  lemma NoReadingAnywhere<T>(rows: seq<TurnEvent>, field: EventRow -> Option<T>)
    requires Rising(rows) && forall c :: !Has(rows, c, field)
    ensures HighestReading(rows, 0, field).NoReading?
  {
    hide TurnIDs, LastReading, HighestReading, TurnNumber, EventsOfTurn, Rising;
    HighestIsTop(rows, 0, field);
    var raw := HighestReading(rows, 0, field);
    if raw.Reading? {
      var k :| 0 < k && TopReading(rows, k, raw, field);
      var c := TurnReading(rows, k, field);
      assert false;
    }
  }

  /** No row above the top turn has the field. */
  lemma NothingAboveTop<T>(rows: seq<TurnEvent>, k: nat, raw: Reading<T>, field: EventRow -> Option<T>)
    requires Rising(rows) && TopReading(rows, k, raw, field)
    ensures forall c :: Has(rows, c, field) ==> TurnNumber(rows, c) <= k
  {
    hide TurnIDs, LastReading, TurnNumber, EventsOfTurn, Rising;
    forall c | Has(rows, c, field) ensures TurnNumber(rows, c) <= k {
      NumberOfRow(rows, c);
      var d := TurnReading(rows, TurnNumber(rows, c), field);
    }
  }

  lemma TopAgainstNewest<T>(rows: seq<TurnEvent>, b: TurnEvent, k: nat, raw: Reading<T>, field: EventRow -> Option<T>)
    requires Rising(rows) && IsNewest(rows, b, field) && TopReading(rows, k, raw, field)
    ensures raw == Reading(b.row.id, field(b.row).value) <==> NewestInTopTurn(rows, field)
  {
    hide TurnIDs, LastReading, TurnNumber, EventsOfTurn, Rising;
    NothingAboveTop(rows, k, raw, field);
    var top := TurnReading(rows, k, field);
    var c := top.value;
    assert c.row.id <= b.row.id;
    if raw == Reading(b.row.id, field(b.row).value) {
      SameIDSameRow(rows, b, c);
      forall b' | IsNewest(rows, b', field) ensures b' == b {
        SameIDSameRow(rows, b, b');
      }
    }
    if NewestInTopTurn(rows, field) {
      assert TurnNumber(rows, c) <= TurnNumber(rows, b);
      SameIDSameRow(rows, b, c);
    }
  }

  // ---------------------------------------------------------------- all the aggregates

  lemma ReadingsDetermineSources(s: Reading<Spend>, c: Reading<real>, x: Reading<Usage>,
                                 s': Reading<Spend>, c': Reading<real>, x': Reading<Usage>)
    requires PositiveID(s) && PositiveID(c) && PositiveID(x) && PositiveID(s') && PositiveID(c') && PositiveID(x')
    ensures FromReadings(s, c, x) == FromReadings(s', c', x') <==> s == s' && c == c' && x == x'
  {
  }

  lemma {:induction false} ReadingsArePositive<T>(rows: seq<TurnEvent>, field: EventRow -> Option<T>)
    requires forall b :: b in rows ==> b.row.id > 0
    ensures PositiveID(LastReading(rows, field))
  {
    if rows != [] {
      assert rows[|rows| - 1] in rows;
      ReadingsArePositive(rows[..|rows| - 1], field);
    }
  }

  lemma {:induction false} RawRowsAreRows(rows: seq<TurnEvent>, from: nat)
    requires from <= |TurnIDs(rows)|
    ensures forall b :: b in RowsFrom(TurnsInOrder(rows), from) ==> b in rows
    decreases |TurnIDs(rows)| - from
  {
    hide TurnIDs, Keep;
    if from < |TurnIDs(rows)| {
      RawRowsAreRows(rows, from + 1);
      KeepMembers(rows, {TurnIDs(rows)[from]});
    }
  }

  /** With whole turns, the builder's aggregate sources over a raw page are those over its events in event
      order if and only if spend, cost and context each have their newest event in the highest-numbered turn
      that reports them. */
  lemma RawSourcesAreThePagesIff(rows: seq<TurnEvent>)
    requires Rising(rows) && WithinCap(TurnsInOrder(rows))
    ensures SourcesOf(RowsFrom(TurnsInOrder(rows), 0)) == SourcesOf(rows) <==>
            NewestInTopTurn(rows, SpendOf) && NewestInTopTurn(rows, CostOf) && NewestInTopTurn(rows, ContextOf)
  {
    hide TurnIDs, LastReading, NewestInTopTurn, SourcesOf, RowsFrom, TurnsInOrder, FromReadings, PositiveID, WithinCap;
    var raw := RowsFrom(TurnsInOrder(rows), 0);
    SourcesAreLastReadings(raw);
    SourcesAreLastReadings(rows);
    RawRowsAreRows(rows, 0);
    ReadingsArePositive(raw, SpendOf);
    ReadingsArePositive(raw, CostOf);
    ReadingsArePositive(raw, ContextOf);
    ReadingsArePositive(rows, SpendOf);
    ReadingsArePositive(rows, CostOf);
    ReadingsArePositive(rows, ContextOf);
    ReadingsDetermineSources(LastReading(raw, SpendOf), LastReading(raw, CostOf), LastReading(raw, ContextOf),
                             LastReading(rows, SpendOf), LastReading(rows, CostOf), LastReading(rows, ContextOf));
    RawReadingIsNewestIff(rows, SpendOf);
    RawReadingIsNewestIff(rows, CostOf);
    RawReadingIsNewestIff(rows, ContextOf);
  }

  // ---------------------------------------------------------------- the order itself

  /** No turn goes on after another has begun to. */
  ghost predicate NoTurnResumes(rows: seq<TurnEvent>) {
    forall i, j, k :: 0 <= i < j < k < |rows| && rows[i].turnID == rows[k].turnID ==> rows[j].turnID == rows[i].turnID
  }

  /** Turn numbers never fall along some rows, numbered by a list of turn ids. */
  ghost predicate NumbersRise(rows: seq<TurnEvent>, ids: seq<string>) {
    forall i, j :: 0 <= i < j < |rows| ==> SeqOf(ids, rows[i].turnID) <= SeqOf(ids, rows[j].turnID)
  }

  /** Turn by turn, turn numbers never fall. */
  lemma {:induction false} RawNumbersRise(rows: seq<TurnEvent>, from: nat)
    requires from <= |TurnIDs(rows)|
    ensures NumbersRise(RowsFrom(TurnsInOrder(rows), from), TurnIDs(rows))
    ensures forall b :: b in RowsFrom(TurnsInOrder(rows), from) ==> SeqOf(TurnIDs(rows), b.turnID) > from
    decreases |TurnIDs(rows)| - from
  {
    hide TurnIDs, SeqOf, Keep;
    if from < |TurnIDs(rows)| {
      RawNumbersRise(rows, from + 1);
      var id, window := TurnIDs(rows)[from], TurnsInOrder(rows);
      KeepMembers(rows, {id});
      TurnIDsDistinct(rows);
      SeqOfUnique(TurnIDs(rows), from);
      var own, rest := NewestEvents(window[from], RAW_EVENT_CAP), RowsFrom(window, from + 1);
      forall b | b in own ensures SeqOf(TurnIDs(rows), b.turnID) == from + 1 {
        assert b in window[from];
      }
      OwnThenRest(own, rest, TurnIDs(rows), from + 1);
    }
  }

  lemma OwnThenRest(own: seq<TurnEvent>, rest: seq<TurnEvent>, ids: seq<string>, n: nat)
    requires NumbersRise(rest, ids)
    requires forall b :: b in own ==> SeqOf(ids, b.turnID) == n
    requires forall b :: b in rest ==> SeqOf(ids, b.turnID) > n
    ensures NumbersRise(own + rest, ids)
  {
    hide SeqOf;
    var all := own + rest;
    forall i, j | 0 <= i < j < |all| ensures SeqOf(ids, all[i].turnID) <= SeqOf(ids, all[j].turnID) {
      assert i < |own| ==> all[i] in own;
      assert j < |own| ==> all[j] in own;
      assert i >= |own| ==> all[i] == rest[i - |own|] && all[j] == rest[j - |own|];
      assert j >= |own| ==> all[j] in rest;
    }
  }

  /** Rows whose turn numbers never fall have no turn that resumes. */
  lemma RisingNumbersNeverResume(rows: seq<TurnEvent>)
    requires NumbersRise(rows, TurnIDs(rows))
    ensures NoTurnResumes(rows)
  {
    hide TurnIDs, SeqOf;
    TurnIDsMembers(rows);
    forall i, j, k | 0 <= i < j < k < |rows| && rows[i].turnID == rows[k].turnID ensures rows[j].turnID == rows[i].turnID {
      assert SeqOf(TurnIDs(rows), rows[j].turnID) == SeqOf(TurnIDs(rows), rows[i].turnID);
      SameNumberSameID(TurnIDs(rows), rows[i].turnID, rows[j].turnID);
    }
  }

  lemma SameNumberSameID(ids: seq<string>, id: string, other: string)
    requires id in ids && SeqOf(ids, id) == SeqOf(ids, other)
    ensures id == other
  {
  }

  lemma {:induction false} RowsFromSnoc(window: seq<seq<TurnEvent>>, turn: seq<TurnEvent>, from: nat)
    requires from <= |window|
    ensures RowsFrom(window + [turn], from) == RowsFrom(window, from) + NewestEvents(turn, RAW_EVENT_CAP)
    decreases |window| - from
  {
    hide NewestEvents;
    if from < |window| {
      RowsFromSnoc(window, turn, from + 1);
    } else {
      assert RowsFrom(window + [turn], from + 1) == [];
    }
  }

  /** Without a turn that resumes, a row is in the newest turn so far or opens one. */
  lemma LastRowOpensOrExtends(rows: seq<TurnEvent>, b: TurnEvent)
    requires rows != [] && NoTurnResumes(rows + [b])
    ensures b.turnID in TurnIDs(rows) ==> b.turnID == rows[|rows| - 1].turnID
  {
    hide TurnIDs, NoTurnResumes;
    TurnIDsMembers(rows);
    if b.turnID in TurnIDs(rows) {
      var c :| c in rows && c.turnID == b.turnID;
      var i :| 0 <= i < |rows| && rows[i] == c;
      if i < |rows| - 1 {
        NothingBetween(rows + [b], i, |rows| - 1, |rows|);
      }
    }
  }

  lemma NothingBetween(rows: seq<TurnEvent>, i: nat, j: nat, k: nat)
    requires NoTurnResumes(rows) && i < j < k < |rows| && rows[i].turnID == rows[k].turnID
    ensures rows[j].turnID == rows[i].turnID
  {
  }

  lemma NoResumeBefore(rows: seq<TurnEvent>, b: TurnEvent)
    requires NoTurnResumes(rows + [b])
    ensures NoTurnResumes(rows)
  {
    var all := rows + [b];
    forall i, j, k | 0 <= i < j < k < |rows| && rows[i].turnID == rows[k].turnID ensures rows[j].turnID == rows[i].turnID {
      assert all[i] == rows[i] && all[j] == rows[j] && all[k] == rows[k];
    }
  }

  /** And then the last row's turn is the highest. */
  lemma {:induction false} LastRowIsInTheLastTurn(rows: seq<TurnEvent>)
    requires rows != [] && NoTurnResumes(rows)
    ensures |TurnIDs(rows)| > 0 && TurnIDs(rows)[|TurnIDs(rows)| - 1] == rows[|rows| - 1].turnID
  {
    var init, last := rows[..|rows| - 1], rows[|rows| - 1];
    assert rows == init + [last];
    TurnIDsSnoc(init, last);
    if init != [] {
      NoResumeBefore(init, last);
      LastRowIsInTheLastTurn(init);
      LastRowOpensOrExtends(init, last);
    }
  }

  /** One more row in the highest turn goes at the end of the raw page too. */
  lemma RawRowsOneMore(rows: seq<TurnEvent>, b: TurnEvent)
    requires rows != [] && NoTurnResumes(rows + [b]) && WithinCap(TurnsInOrder(rows + [b]))
    ensures WithinCap(TurnsInOrder(rows))
    ensures RowsFrom(TurnsInOrder(rows + [b]), 0) == RowsFrom(TurnsInOrder(rows), 0) + [b]
  {
    hide TurnIDs, RowsFrom, EventsOfTurn, NoTurnResumes;
    NoResumeBefore(rows, b);
    LastRowIsInTheLastTurn(rows);
    LastRowOpensOrExtends(rows, b);
    TurnIDsSnoc(rows, b);
    if b.turnID in TurnIDs(rows) {
      TurnExtended(rows, b);
    } else {
      TurnOpened(rows, b);
    }
  }

  lemma TurnOpened(rows: seq<TurnEvent>, b: TurnEvent)
    requires b.turnID !in TurnIDs(rows) && WithinCap(TurnsInOrder(rows + [b]))
    ensures WithinCap(TurnsInOrder(rows))
    ensures RowsFrom(TurnsInOrder(rows + [b]), 0) == RowsFrom(TurnsInOrder(rows), 0) + [b]
  {
    hide TurnIDs, RowsFrom, EventsOfTurn;
    NewTurn(rows, b);
    var window, window' := TurnsInOrder(rows), TurnsInOrder(rows + [b]);
    TurnIDsDistinct(rows);
    forall i | 0 <= i < |window| ensures window'[i] == window[i] {
      EventsOfTurnSnoc(rows, b, i + 1);
      assert TurnIDs(rows)[i] in TurnIDs(rows);
    }
    assert window' == window + [[b]];
    RowsFromSnoc(window, [b], 0);
  }

  lemma TurnExtended(rows: seq<TurnEvent>, b: TurnEvent)
    requires |TurnIDs(rows)| > 0 && b.turnID == TurnIDs(rows)[|TurnIDs(rows)| - 1] && WithinCap(TurnsInOrder(rows + [b]))
    ensures WithinCap(TurnsInOrder(rows))
    ensures RowsFrom(TurnsInOrder(rows + [b]), 0) == RowsFrom(TurnsInOrder(rows), 0) + [b]
  {
    hide TurnIDs, RowsFrom, EventsOfTurn;
    TurnIDsSnoc(rows, b);
    TurnIDsDistinct(rows);
    var window, window', n := TurnsInOrder(rows), TurnsInOrder(rows + [b]), |TurnIDs(rows)| - 1;
    forall i | 0 <= i < |window| ensures window'[i] == if i == n then window[i] + [b] else window[i] {
      EventsOfTurnSnoc(rows, b, i + 1);
    }
    assert forall i :: 0 <= i < |window| ==> |window[i]| <= |window'[i]|;
    assert window == window[..n] + [window[n]] && window' == window[..n] + [window[n] + [b]];
    RowsFromSnoc(window[..n], window[n], 0);
    RowsFromSnoc(window[..n], window[n] + [b], 0);
  }

  lemma {:induction false} InOrderWhenNoneResumes(rows: seq<TurnEvent>)
    requires NoTurnResumes(rows) && WithinCap(TurnsInOrder(rows))
    ensures RowsFrom(TurnsInOrder(rows), 0) == rows
  {
    hide RowsFrom, NoTurnResumes, WithinCap, EventsOfTurn, TurnIDs;
    if |rows| <= 1 {
      AtMostOneRow(rows);
    } else {
      var init, last := rows[..|rows| - 1], rows[|rows| - 1];
      assert rows == init + [last];
      NoResumeBefore(init, last);
      RawRowsOneMore(init, last);
      InOrderWhenNoneResumes(init);
    }
  }

  lemma AtMostOneRow(rows: seq<TurnEvent>)
    requires |rows| <= 1
    ensures RowsFrom(TurnsInOrder(rows), 0) == rows
  {
    hide TurnIDs, EventsOfTurn, RowsFrom;
    NoRowsNoTurns();
    if rows != [] {
      assert rows == [] + [rows[0]];
      NewTurn([], rows[0]);
      RowsFromSnoc([], rows, 0);
      assert |TurnIDs(rows)| == 1 && EventsOfTurn(rows, 1) == rows;
      var window := TurnsInOrder(rows);
      assert |window| == 1 && window[0] == rows;
      assert window == [] + [rows];
      assert NewestEvents(rows, RAW_EVENT_CAP) == rows;
    }
  }

  lemma NoRowsNoTurns()
    ensures TurnIDs([]) == [] && TurnsInOrder([]) == [] && RowsFrom([], 0) == []
  {
  }

  /** With whole turns, a raw page lists its events in event order if and only if no turn on it resumes. */
  lemma RawPageIsInOrderIff(rows: seq<TurnEvent>)
    requires WithinCap(TurnsInOrder(rows))
    ensures RowsFrom(TurnsInOrder(rows), 0) == rows <==> NoTurnResumes(rows)
  {
    hide RowsFrom, NoTurnResumes, WithinCap, TurnsInOrder, TurnIDs;
    RawNumbersRise(rows, 0);
    if RowsFrom(TurnsInOrder(rows), 0) == rows {
      RisingNumbersNeverResume(rows);
    }
    if NoTurnResumes(rows) {
      InOrderWhenNoneResumes(rows);
    }
  }

  lemma FittingTurnsAreWhole(window: seq<seq<TurnEvent>>)
    requires EventsFrom(window, 0) <= RAW_EVENT_CAP
    ensures WithinCap(window)
  {
    forall i | 0 <= i < |window| ensures |window[i]| <= RAW_EVENT_CAP {
      EventsFromFalls(window, 0, i);
      EventsFromFalls(window, i, i + 1);
    }
  }

  // ---------------------------------------------------------------- a page on which they differ

  predicate ReportsCost(b: TurnEvent, cost: real) {
    b.row.body.Some? && b.row.body.value.typ == SessionCost && b.row.body.value.sessionCost == Some(cost)
  }

  lemma TurnsOfThree(a: TurnEvent, b: TurnEvent, c: TurnEvent)
    requires a.turnID == c.turnID != b.turnID
    ensures TurnsInOrder([a, b, c]) == [[a, c], [b]]
  {
    hide TurnIDs, Keep;
    TurnIDsThree(a, b, c);
    KeepThree(a, b, c, a.turnID);
    KeepThree(a, b, c, b.turnID);
    var window := TurnsInOrder([a, b, c]);
    assert window[0] == [a, c] && window[1] == [b];
  }

  lemma TurnIDsThree(a: TurnEvent, b: TurnEvent, c: TurnEvent)
    requires a.turnID == c.turnID != b.turnID
    ensures TurnIDs([a, b, c]) == [a.turnID, b.turnID]
  {
    hide TurnIDs;
    NoRowsNoTurns();
    TurnIDsSnoc([], a);
    TurnIDsSnoc([a], b);
    TurnIDsSnoc([a, b], c);
    assert [] + [a] == [a] && [a] + [b] == [a, b] && [a, b] + [c] == [a, b, c];
  }

  lemma KeepThree(a: TurnEvent, b: TurnEvent, c: TurnEvent, id: string)
    ensures Keep([a, b, c], {id}) ==
            (if a.turnID == id then [a] else []) + (if b.turnID == id then [b] else []) + (if c.turnID == id then [c] else [])
  {
    KeepSnoc([], a, {id});
    KeepSnoc([a], b, {id});
    KeepSnoc([a, b], c, {id});
    assert [] + [a] == [a] && [a] + [b] == [a, b] && [a, b] + [c] == [a, b, c];
  }

  lemma LastCostWins(rows: seq<TurnEvent>, b: TurnEvent, cost: real)
    requires ReportsCost(b, cost)
    ensures SourcesOf(rows + [b]).cost == Some(cost)
  {
    assert (rows + [b])[..|rows|] == rows;
  }

  /** A turn that resumes after another: the raw page shows the other turn's cost, not the newer one of the
      turn resumed. */
  lemma InterleavedTurnsMoveTheRawCost(a: TurnEvent, b: TurnEvent, c: TurnEvent, older: real, newer: real)
    requires a.row.id < b.row.id < c.row.id && a.turnID == c.turnID != b.turnID
    requires ReportsCost(b, older) && ReportsCost(c, newer) && older != newer
    ensures var rows := [a, b, c];
            var raw := RowsFrom(TurnsInOrder(rows), 0);
            && raw == [a, c, b] && raw != rows
            && SourcesOf(raw).cost == Some(older) && SourcesOf(rows).cost == Some(newer)
  {
    hide SourcesOf, Keep, TurnIDs, EventsOfTurn, TurnsInOrder;
    TurnsOfThree(a, b, c);
    var window := [[a, c], [b]];
    assert RowsFrom(window, 2) == [];
    assert RowsFrom(window, 1) == [b];
    assert RowsFrom(window, 0) == [a, c] + [b];
    LastCostWins([a, c], b, older);
    LastCostWins([a, b], c, newer);
    assert [a, b, c] == [a, b] + [c];
    assert [a, c, b] == [a, c] + [b];
    assert [a, c, b][1] != [a, b, c][1];
  }
}
