/** The raw page: whole turns from the newest back while they fit, and the tail of a newest turn that
    does not fit alone. */
module RawPage {
  import opened Events
  import opened TurnRule

  /** rawEventCap. */
  const RAW_EVENT_CAP := 5000

  /** The events of turns from..; the window's turns are given oldest first. */
  function EventsFrom(window: seq<seq<TurnEvent>>, from: nat): nat
    requires from <= |window|
    decreases |window| - from
  {
    if from == |window| then 0 else |window[from]| + EventsFrom(window, from + 1)
  }

  /** Whether a raw page may start at a turn of the window: everything from there fits, or it is the newest. */
  predicate Fits(window: seq<seq<TurnEvent>>, from: nat) {
    from <= |window| && (EventsFrom(window, from) <= RAW_EVENT_CAP || from + 1 >= |window|)
  }

  /** TurnEventsTail. */
  function NewestEvents(events: seq<TurnEvent>, max: nat): seq<TurnEvent> {
    if |events| <= max then events else events[|events| - max..]
  }

  function RowsFrom(window: seq<seq<TurnEvent>>, from: nat): seq<TurnEvent>
    requires from <= |window|
    decreases |window| - from
  {
    if from == |window| then [] else NewestEvents(window[from], RAW_EVENT_CAP) + RowsFrom(window, from + 1)
  }

  lemma {:induction false} EventsFromFalls(window: seq<seq<TurnEvent>>, i: nat, j: nat)
    requires i <= j <= |window|
    ensures EventsFrom(window, j) <= EventsFrom(window, i)
    ensures i < j ==> |window[i]| <= EventsFrom(window, i)
    decreases j - i
  {
    if i < j {
      EventsFromFalls(window, i + 1, j);
    }
  }

  lemma {:induction false} RowsFromCount(window: seq<seq<TurnEvent>>, from: nat)
    requires from <= |window|
    ensures EventsFrom(window, from) <= RAW_EVENT_CAP ==> |RowsFrom(window, from)| == EventsFrom(window, from)
    ensures from + 1 == |window| && EventsFrom(window, from) > RAW_EVENT_CAP ==> |RowsFrom(window, from)| == RAW_EVENT_CAP
    decreases |window| - from
  {
    if from < |window| {
      RowsFromCount(window, from + 1);
      EventsFromFalls(window, from + 1, |window|);
    }
  }

  /** The first loop of materializeTail: the newest turns that fit. */
  method ChooseTurns(window: seq<seq<TurnEvent>>, older: bool) returns (first: nat, more: bool)
    ensures Fits(window, first) && (|window| > 0 ==> first < |window|)
    ensures first + 1 < |window| ==> EventsFrom(window, first) <= 5000
    ensures forall f :: 0 <= f < first ==> f + 1 < |window| && EventsFrom(window, f) > 5000
    ensures more <==> older || first > 0
  {
    first, more := |window|, older;
    var events := 0;
    var i := |window|;
    while i > 0
      invariant 0 <= i <= |window| && first == i
      invariant events == EventsFrom(window, i) && Fits(window, i)
      invariant more == older
    {
      i := i - 1;
      if i < |window| - 1 && events + |window[i]| > RAW_EVENT_CAP {
        forall f | 0 <= f < first ensures f + 1 < |window| && EventsFrom(window, f) > 5000 {
          EventsFromFalls(window, f, i);
        }
        return first, true;
      }
      events := events + |window[i]|;
      first := i;
    }
  }

  /** materializeTail's rows: the page never carries more than the cap; it is the longest suffix of whole
      turns that fits, or the newest events of a newest turn that is over the cap alone; and `more` says
      exactly whether a turn or an event of the range was left out. */
  method RawRows(window: seq<seq<TurnEvent>>, older: bool) returns (rows: seq<TurnEvent>, first: nat, more: bool)
    ensures first <= |window| && (first + 1 < |window| ==> EventsFrom(window, first) <= 5000)
    ensures forall f :: 0 <= f < first ==> f + 1 < |window| && EventsFrom(window, f) > 5000
    ensures rows == RowsFrom(window, first) && |rows| <= 5000
    ensures EventsFrom(window, first) <= 5000 ==> |rows| == EventsFrom(window, first)
    ensures EventsFrom(window, first) > 5000 ==>
              && first + 1 == |window| && |window[first]| > 5000
              && rows == window[first][|window[first]| - 5000..]
    ensures more <==> older || first > 0 || |rows| < EventsFrom(window, first)
  {
    hide EventsFrom, Fits;
    first, more := ChooseTurns(window, older);
    rows := [];
    RowsFromCount(window, first);
    for i := first to |window|
      invariant rows + RowsFrom(window, i) == RowsFrom(window, first)
      invariant more <==> older || first > 0 || exists j :: first <= j < i && |window[j]| > RAW_EVENT_CAP
    {
      var turnRows: seq<TurnEvent>;
      if |window[i]| > RAW_EVENT_CAP {
        turnRows := NewestEvents(window[i], RAW_EVENT_CAP);
        more := true;
      } else {
        turnRows := window[i];
      }
      assert rows + (turnRows + RowsFrom(window, i + 1)) == (rows + turnRows) + RowsFrom(window, i + 1);
      rows := rows + turnRows;
    }
    assert rows + [] == rows;
    OversizedOnlyAlone(window, first);
  }

  lemma OversizedOnlyAlone(window: seq<seq<TurnEvent>>, first: nat)
    requires Fits(window, first)
    ensures (exists j :: first <= j < |window| && |window[j]| > RAW_EVENT_CAP) <==> EventsFrom(window, first) > RAW_EVENT_CAP
    ensures EventsFrom(window, first) > RAW_EVENT_CAP ==>
              && first + 1 == |window| && |window[first]| > RAW_EVENT_CAP
              && RowsFrom(window, first) == window[first][|window[first]| - RAW_EVENT_CAP..]
  {
    forall j | first <= j < |window| ensures |window[j]| <= EventsFrom(window, first) {
      EventsFromFalls(window, first, j);
      EventsFromFalls(window, j, j + 1);
    }
    if EventsFrom(window, first) > RAW_EVENT_CAP {
      assert EventsFrom(window, first) == |window[first]|;
    }
  }
}
