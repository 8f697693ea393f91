/** The raw page of a session's turns against the same events in event order. */
module RawAgreement {
  import opened Events
  import opened TurnRule
  import opened IndexRules
  import opened TurnIndex
  import opened TurnModel
  import opened Latest
  import opened RawPage
  import opened RawOrder
  import opened ServedPage

  /** The turns first..last as materializeTail reads them from the index, one after another. */
  function TurnsRead(rules: Rules, log: seq<EventRow>, first: nat, last: nat): (window: seq<seq<TurnEvent>>)
    requires 1 <= first <= last <= |TurnIDs(Tagged(rules, log))|
    ensures |window| == last + 1 - first
  {
    seq(last + 1 - first, i requires 0 <= i < last + 1 - first => EventsOfTurn(Tagged(rules, log), first + i))
  }

  lemma TurnsReadAreThePages(rules: Rules, log: seq<EventRow>, first: nat, last: nat)
    requires Ascending(log) && 1 <= first <= last <= |TurnIDs(Tagged(rules, log))|
    ensures Rising(PageRows(rules, log, first, last))
    ensures TurnsRead(rules, log, first, last) == TurnsInOrder(PageRows(rules, log, first, last))
  {
    hide TurnIDs, Tagged, EventsOfTurn, PageRows, Rising;
    PageTurnIDs(rules, log, first, last);
    var window, rows := TurnsRead(rules, log, first, last), PageRows(rules, log, first, last);
    forall i | 0 <= i < |window| ensures |TurnIDs(rows)| == |window| && window[i] == TurnsInOrder(rows)[i] {
      PageTurn(rules, log, first, last, first + i);
    }
    PageTurn(rules, log, first, last, first);
  }

  /** For every log and every page of whole turns: the raw page is in event order if and only if no turn on it
      resumes, and its aggregate sources are those of the same events in event order if and only if spend,
      cost and context each have their newest event in the highest turn that reports them. */
  lemma RawPageAgreesIff(rules: Rules, log: seq<EventRow>, first: nat, last: nat)
    requires Ascending(log) && 1 <= first <= last <= |TurnIDs(Tagged(rules, log))|
    requires EventsFrom(TurnsRead(rules, log, first, last), 0) <= RAW_EVENT_CAP
    ensures var raw, rows := RowsFrom(TurnsRead(rules, log, first, last), 0), PageRows(rules, log, first, last);
            && (raw == rows <==> NoTurnResumes(rows))
            && (SourcesOf(raw) == SourcesOf(rows) <==>
                NewestInTopTurn(rows, SpendOf) && NewestInTopTurn(rows, CostOf) && NewestInTopTurn(rows, ContextOf))
  {
    hide TurnIDs, Tagged, PageRows, Rising, RowsFrom, NoTurnResumes, NewestInTopTurn, SourcesOf, TurnsRead, TurnsInOrder, EventsFrom;
    TurnsReadAreThePages(rules, log, first, last);
    FittingTurnsAreWhole(TurnsRead(rules, log, first, last));
    RawPageIsInOrderIff(PageRows(rules, log, first, last));
    RawSourcesAreThePagesIff(PageRows(rules, log, first, last));
  }
}
