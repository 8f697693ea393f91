/** The builder's grouping of rows into turns, and that it agrees with the index. */
module Grouping {
  import opened Options
  import opened Events
  import opened TurnRule
  import opened IndexRules
  import opened TurnIndex
  import opened TurnModel

  // ---------------------------------------------------------------- the builder's rule

  lemma SettledSnoc(rows: seq<TurnEvent>, b: TurnEvent)
    ensures LastSettled(rows + [b]) == Resolve(LastSettled(rows), b.row.id, GivenTurnID(b))
    ensures Settled(rows + [b]) == Settled(rows) + [TurnEvent(LastSettled(rows + [b]), b.row)]
  {
    assert (rows + [b])[..|rows|] == rows;
  }

  lemma {:induction false} SettledPrefix(rows: seq<TurnEvent>, n: nat)
    requires n <= |rows|
    ensures Settled(rows)[..n] == Settled(rows[..n])
  {
    if n == |rows| {
      assert rows[..n] == rows;
    } else {
      SettledPrefix(rows[..|rows| - 1], n);
      assert rows[..|rows| - 1][..n] == rows[..n];
    }
  }

  /** Rows that carry index turn ids are grouped exactly as indexed. */
  lemma {:induction false} IndexedRowsAreSettled(rows: seq<TurnEvent>)
    requires forall b :: b in rows ==> b.turnID != ""
    ensures Settled(rows) == rows
    ensures rows != [] ==> LastSettled(rows) == rows[|rows| - 1].turnID
  {
    if rows != [] {
      var init, last := rows[..|rows| - 1], rows[|rows| - 1];
      assert rows == init + [last];
      assert last in rows;
      IndexedRowsAreSettled(init);
      SettledSnoc(init, last);
    }
  }

  /** A log's rows as a caller without the index would hand them over. */
  function Bare(log: seq<EventRow>): (rows: seq<TurnEvent>)
    ensures |rows| == |log|
  {
    if log == [] then [] else Bare(log[..|log| - 1]) + [TurnEvent("", log[|log| - 1])]
  }

  /** Both readings of an event lead to the same turn after `last`. */
  predicate SameTurnAfter(last: string, row: EventRow) {
    Resolve(last, row.id, GivenTurnID(TurnEvent("", row))) == Resolve(last, row.id, row.rawTurnID)
  }

  lemma BareSnoc(log: seq<EventRow>, e: EventRow)
    ensures Bare(log + [e]) == Bare(log) + [TurnEvent("", e)]
  {
    assert (log + [e])[..|log|] == log;
  }

  lemma GroupingStep(log: seq<EventRow>, e: EventRow)
    requires Settled(Bare(log)) == Tagged(OwnRules, log) ==> LastSettled(Bare(log)) == LastTurnID(OwnRules, log)
    ensures Settled(Bare(log + [e])) == Tagged(OwnRules, log + [e]) <==>
            Settled(Bare(log)) == Tagged(OwnRules, log) && SameTurnAfter(LastTurnID(OwnRules, log), e)
    ensures Settled(Bare(log + [e])) == Tagged(OwnRules, log + [e]) ==> LastSettled(Bare(log + [e])) == LastTurnID(OwnRules, log + [e])
  {
    hide Settled, Tagged, LastSettled, LastTurnID, Bare, Resolve, GivenTurnID;
    BareSnoc(log, e);
    SettledSnoc(Bare(log), TurnEvent("", e));
    TaggedSnoc(OwnRules, log, e);
    var left, right := Settled(Bare(log)), Tagged(OwnRules, log);
    var x, y := TurnEvent(LastSettled(Bare(log + [e])), e), TurnEvent(LastTurnID(OwnRules, log + [e]), e);
    if left + [x] == right + [y] {
      assert (left + [x])[..|log|] == left && (right + [y])[..|log|] == right;
      assert (left + [x])[|log|] == x && (right + [y])[|log|] == y;
    }
  }

  ghost predicate SameTurns(log: seq<EventRow>) {
    forall i :: 0 <= i < |log| ==> SameTurnAfter(LastTurnID(OwnRules, log[..i]), log[i])
  }

  lemma SameTurnsSnoc(log: seq<EventRow>, e: EventRow)
    ensures SameTurns(log + [e]) <==> SameTurns(log) && SameTurnAfter(LastTurnID(OwnRules, log), e)
  {
    hide SameTurnAfter, LastTurnID;
    var all := log + [e];
    assert all[..|log|] == log && all[|log|] == e;
    forall i | 0 <= i < |log| ensures all[..i] == log[..i] && all[i] == log[i] {
    }
  }

  /** The builder's own grouping of a whole session gives the index's turns, order and membership if and
      only if, at every event, what the builder decodes as its turn id and what the index extracts lead to
      the same turn. */
  lemma {:induction false} GroupingMatchesIndexIff(log: seq<EventRow>)
    ensures Settled(Bare(log)) == Tagged(OwnRules, log) <==> SameTurns(log)
    ensures Settled(Bare(log)) == Tagged(OwnRules, log) ==> LastSettled(Bare(log)) == LastTurnID(OwnRules, log)
  {
    if log != [] {
      hide SameTurns, Settled, Tagged, Bare, LastSettled, LastTurnID;
      var init, last := log[..|log| - 1], log[|log| - 1];
      assert log == init + [last];
      GroupingMatchesIndexIff(init);
      GroupingStep(init, last);
      SameTurnsSnoc(init, last);
    }
  }

  /** Where bodies decode, they decode to the turn id the index extracts. */
  predicate DecodesItsTurnID(row: EventRow) {
    row.body.Some? ==> row.body.value.turnID == row.rawTurnID
  }

  /** So only an undecodable event that names a turn other than the running one can set them apart. */
  lemma GroupingMatchesIndexWhenDecoded(log: seq<EventRow>)
    requires forall e :: e in log ==> DecodesItsTurnID(e)
    ensures Settled(Bare(log)) == Tagged(OwnRules, log) <==>
            forall i :: 0 <= i < |log| && log[i].body.None? ==>
              log[i].rawTurnID == "" || log[i].rawTurnID == Resolve(LastTurnID(OwnRules, log[..i]), log[i].id, "")
  {
    GroupingMatchesIndexIff(log);
    forall i | 0 <= i < |log|
      ensures SameTurnAfter(LastTurnID(OwnRules, log[..i]), log[i]) <==>
              (log[i].body.None? ==> log[i].rawTurnID == "" || log[i].rawTurnID == Resolve(LastTurnID(OwnRules, log[..i]), log[i].id, ""))
    {
      assert log[i] in log && DecodesItsTurnID(log[i]);
    }
  }

  // ---------------------------------------------------------------- the turn list

  lemma IDsOfSnoc(rows: seq<TurnEvent>, b: TurnEvent)
    ensures IDsOf(rows + [b]) == IDsOf(rows) + [b.row.id]
  {
    assert (rows + [b])[..|rows|] == rows;
  }

  lemma TurnListNewTurn(rows: seq<TurnEvent>, b: TurnEvent)
    requires b.turnID !in TurnIDs(rows)
    ensures TurnListOf(rows + [b]) ==
            TurnListOf(rows) + [Turn(b.turnID, PlainEntry(b).role, PlainEntry(b).ts, [b.row.id])]
  {
    hide TurnIDs, Keep, EventsOfTurn, PlainEntry;
    NewTurn(rows, b);
    forall k: nat | 1 <= k <= |TurnIDs(rows)| ensures EventsOfTurn(rows + [b], k) == EventsOfTurn(rows, k) {
      EventsOfTurnSnoc(rows, b, k);
      assert TurnIDs(rows)[k - 1] in TurnIDs(rows);
    }
    IDsOfSnoc([], b);
    assert [] + [b] == [b];
    var n := |TurnIDs(rows)|;
    assert IDsOf([]) == [];
    assert TurnListOf(rows + [b])[n] == TurnOf([b]) == Turn(b.turnID, PlainEntry(b).role, PlainEntry(b).ts, [b.row.id]);
    assert forall i :: 0 <= i < n ==> TurnListOf(rows + [b])[i] == TurnListOf(rows)[i];
  }

  lemma TurnOfSnoc(events: seq<TurnEvent>, b: TurnEvent)
    requires events != []
    ensures TurnOf(events + [b]) == TurnOf(events).(entryIDs := TurnOf(events).entryIDs + [b.row.id])
  {
    IDsOfSnoc(events, b);
  }

  lemma TurnListSameTurn(rows: seq<TurnEvent>, b: TurnEvent)
    requires b.turnID in TurnIDs(rows)
    ensures var at, turns := SeqOf(TurnIDs(rows), b.turnID) - 1, TurnListOf(rows);
            TurnListOf(rows + [b]) == turns[at := turns[at].(entryIDs := turns[at].entryIDs + [b.row.id])]
  {
    hide TurnIDs, Keep, EventsOfTurn, PlainEntry, TurnOf, SeqOf;
    var at := SeqOf(TurnIDs(rows), b.turnID);
    TurnIDsSnoc(rows, b);
    TurnIDsDistinct(rows);
    forall k: nat | 1 <= k <= |TurnIDs(rows)|
      ensures EventsOfTurn(rows + [b], k) == if k == at then EventsOfTurn(rows, k) + [b] else EventsOfTurn(rows, k)
    {
      EventsOfTurnSnoc(rows, b, k);
      SeqOfUnique(TurnIDs(rows), k - 1);
    }
    TurnOfSnoc(EventsOfTurn(rows, at), b);
  }

  /** The rows of one indexed turn build into exactly one turn, so a turn built into several is
      unreachable. */
  lemma OneTurnFromOneTurn(rows: seq<TurnEvent>, id: string)
    requires rows != [] && id != "" && forall b :: b in rows ==> b.turnID == id
    ensures TurnIDs(rows) == [id]
    ensures |TurnListOf(Settled(rows))| == 1 && TurnListOf(Settled(rows))[0] == TurnOf(rows)
  {
    hide Settled, TurnIDs, Keep, PlainEntry, IDsOf;
    IndexedRowsAreSettled(rows);
    OneTurnID(rows, id);
    KeepAll(rows, {id});
  }

  lemma {:induction false} OneTurnID(rows: seq<TurnEvent>, id: string)
    requires rows != [] && forall b :: b in rows ==> b.turnID == id
    ensures TurnIDs(rows) == [id]
  {
    var init, last := rows[..|rows| - 1], rows[|rows| - 1];
    assert rows == init + [last];
    assert last in rows;
    TurnIDsSnoc(init, last);
    if init != [] {
      OneTurnID(init, id);
    }
  }
}
