/** The aggregates of a page, said over its events: cost, spend and context, each from the newest event that
    reports it. */
module PageAggregates {
  import opened Options
  import opened Events
  import opened TurnRule
  import opened Dedup
  import opened TurnModel
  import opened Latest
  import opened RawOrder

  // ---------------------------------------------------------------- what an event reports

  lemma SpendOfIff(row: EventRow, s: Spend)
    ensures SpendOf(row) == Some(s) <==>
            row.body.Some? && row.body.value.typ == APISpendTotal && row.body.value.apiSpendTotal == Some(s)
  {
  }

  lemma CostOfIff(row: EventRow, cost: real)
    ensures CostOf(row) == Some(cost) <==>
            row.body.Some? && row.body.value.typ == SessionCost && row.body.value.sessionCost == Some(cost)
  {
  }

  /** The usage an event is read for: its usage total; without one, its spend's usage; without either, a
      result's own. */
  predicate Uses(ev: Event, u: Usage) {
    || ev.usageTotal == Some(u)
    || (ev.usageTotal.None? && ev.apiSpendTotal.Some? && ev.apiSpendTotal.value.usage == u)
    || (ev.usageTotal.None? && ev.apiSpendTotal.None? && ev.typ == Result && ev.result.Some? && ev.result.value.usage == u)
  }

  /** And it is a reading of the context only when it says something. */
  lemma ContextOfIff(row: EventRow, u: Usage)
    ensures ContextOf(row) == Some(u) <==>
            row.body.Some? && Uses(row.body.value, u) && (u.contextTokens != 0 || u.contextLimit != 0)
  {
  }

  // ---------------------------------------------------------------- sums

  /** The sum over models is a sum. */
  lemma {:induction false} SumOfModels(a: seq<(string, real)>, b: seq<(string, real)>)
    ensures SumCosts(a + b) == SumCosts(a) + SumCosts(b)
    ensures forall c: (string, real) :: SumCosts([c]) == c.1
  {
    if b == [] {
      assert a + b == a;
    } else {
      assert (a + b)[..|a + b| - 1] == a + b[..|b| - 1];
      SumOfModels(a, b[..|b| - 1]);
    }
  }

  /** What a spend report comes to: its total, or, when it gives none, the sum over its models. */
  function Total(s: Spend): real {
    if s.totalUSD != 0.0 then s.totalUSD else SumCosts(s.byModel)
  }

  // ---------------------------------------------------------------- the page

  ghost predicate Silent<T(!new)>(rows: seq<TurnEvent>, field: EventRow -> Option<T>) {
    forall b :: !Has(rows, b, field)
  }

  /** The newest row with the field has this value. */
  ghost predicate NewestSays<T(!new)>(rows: seq<TurnEvent>, field: EventRow -> Option<T>, v: T) {
    exists b :: IsNewest(rows, b, field) && field(b.row) == Some(v)
  }

  /** The aggregate sources hold, of each field, what the newest row with it says. */
  lemma NewestReading<T(!new)>(rows: seq<TurnEvent>, field: EventRow -> Option<T>)
    requires Rising(rows)
    ensures LastReading(rows, field).NoReading? <==> Silent(rows, field)
    ensures forall v :: NewestSays(rows, field, v) <==> LastReading(rows, field).Reading? && LastReading(rows, field).value == v
  {
    hide LastReading, Rising;
    var newest := LastReadingIsNewest(rows, field);
    if newest.Some? {
      assert Has(rows, newest.value, field);
      forall b | IsNewest(rows, b, field) ensures b == newest.value {
        SameIDSameRow(rows, b, newest.value);
      }
      assert IsNewest(rows, newest.value, field);
    }
  }

  /** What the page shows is made of the readings alone. */
  lemma AggregatesOfReadings(rows: seq<TurnEvent>, pairs: Pairs, more: bool)
    requires Rising(rows) && DistinctIDs(rows)
    ensures var spend, cost, context := LastReading(rows, SpendOf), LastReading(rows, CostOf), LastReading(rows, ContextOf);
            Projected(ModelOf(rows, pairs, more)).aggregates ==
            BuildAggregates(ReadingValue(spend), ReadingValue(cost),
                            if context.Reading? then context.value.contextTokens else 0,
                            if context.Reading? then context.value.contextLimit else 0, context.Reading?)
  {
    hide LastReading, SourcesOf, Rising, DistinctIDs, SpendOf, CostOf, ContextOf, SumCosts, EntriesOf;
    SourcesAreLastReadings(rows);
    PositiveReadings(rows);
  }

  lemma PositiveReadings(rows: seq<TurnEvent>)
    requires Rising(rows)
    ensures PositiveID(LastReading(rows, ContextOf))
  {
    ReadingsArePositive(rows, ContextOf);
  }

  /** A page has aggregates if and only if some event reports cost, spend or context. */
  lemma AggregatesIffReported(rows: seq<TurnEvent>, pairs: Pairs, more: bool)
    requires Rising(rows) && DistinctIDs(rows)
    ensures Projected(ModelOf(rows, pairs, more)).aggregates.None? <==>
            Silent(rows, SpendOf) && Silent(rows, CostOf) && Silent(rows, ContextOf)
  {
    hide LastReading, Projected, ModelOf, Silent, Rising, DistinctIDs, SpendOf, CostOf, ContextOf, SumCosts;
    AggregatesOfReadings(rows, pairs, more);
    NewestReading(rows, SpendOf);
    NewestReading(rows, CostOf);
    NewestReading(rows, ContextOf);
  }

  /** The total is the newest session cost; without one, what the newest spend comes to; without either, 0. */
  lemma TotalIsTheNewest(rows: seq<TurnEvent>, pairs: Pairs, more: bool)
    requires Rising(rows) && DistinctIDs(rows)
    ensures var agg := Projected(ModelOf(rows, pairs, more)).aggregates;
            && (forall v :: NewestSays(rows, CostOf, v) ==> agg.Some? && agg.value.totalUSD == v)
            && (Silent(rows, CostOf) ==> forall s :: NewestSays(rows, SpendOf, s) ==> agg.Some? && agg.value.totalUSD == Total(s))
            && (Silent(rows, CostOf) && Silent(rows, SpendOf) && agg.Some? ==> agg.value.totalUSD == 0.0)
  {
    hide LastReading, Projected, ModelOf, Silent, NewestSays, Rising, DistinctIDs, SpendOf, CostOf, ContextOf, SumCosts;
    AggregatesOfReadings(rows, pairs, more);
    NewestReading(rows, SpendOf);
    NewestReading(rows, CostOf);
    NothingSums();
  }

  lemma NothingSums()
    ensures SumCosts([]) == 0.0
  {
  }

  /** The breakdowns are the newest spend's, whatever the total is, and the context is its newest reading. */
  lemma BreakdownsAndContextAreTheNewest(rows: seq<TurnEvent>, pairs: Pairs, more: bool)
    requires Rising(rows) && DistinctIDs(rows)
    ensures var agg := Projected(ModelOf(rows, pairs, more)).aggregates;
            && (forall s :: NewestSays(rows, SpendOf, s) ==>
                  agg.Some? && agg.value.byModel == s.byModel && agg.value.byQuerySource == s.byQuerySource)
            && (Silent(rows, SpendOf) && agg.Some? ==> agg.value.byModel == [] && agg.value.byQuerySource == [])
            && (forall u :: NewestSays(rows, ContextOf, u) ==>
                  agg.Some? && agg.value.contextTokens == u.contextTokens && agg.value.contextLimit == u.contextLimit)
            && (Silent(rows, ContextOf) && agg.Some? ==> agg.value.contextTokens == 0 && agg.value.contextLimit == 0)
  {
    hide LastReading, Projected, ModelOf, Silent, NewestSays, Rising, DistinctIDs, SpendOf, CostOf, ContextOf, SumCosts;
    AggregatesOfReadings(rows, pairs, more);
    NewestReading(rows, SpendOf);
    NewestReading(rows, ContextOf);
  }
}
