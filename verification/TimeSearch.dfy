/** Finding the first event at or after a time by binary search over event ids. */
module TimeSearch {
  import opened Options

  /** One row of the events table, its created_at in whole seconds. */
  datatype Stamp = Stamp(id: nat, created: int)

  /** The table in id order: ids rise from at least 1, and a later row is never stamped earlier. */
  ghost predicate Stamped(events: seq<Stamp>) {
    && (forall i :: 0 <= i < |events| ==> 0 < events[i].id)
    && (forall i, j :: 0 <= i < j < |events| ==> events[i].id < events[j].id && events[i].created <= events[j].created)
  }

  /** Ids without gaps, as AUTOINCREMENT gives them when no row is ever deleted. */
  ghost predicate Contiguous(events: seq<Stamp>) {
    forall i :: 0 <= i < |events| - 1 ==> events[i + 1].id == events[i].id + 1
  }

  ghost predicate StrictlyLater(events: seq<Stamp>) {
    forall i, j :: 0 <= i < j < |events| ==> events[i].created < events[j].created
  }

  /** SELECT id, created_at FROM events WHERE id >= ? ORDER BY id LIMIT 1. */
  function At(events: seq<Stamp>, id: nat): (e: Stamp)
    requires events != [] && id <= events[|events| - 1].id
    ensures e in events && e.id >= id
  {
    if |events| == 1 || events[|events| - 2].id < id then events[|events| - 1] else At(events[..|events| - 1], id)
  }

  // ---------------------------------------------------------------- the loop

  /** One probe of the loop: the new bounds, or that the loop breaks. */
  datatype Probe = Moved(lo: nat, hi: nat) | Broke

  function ProbeStep(events: seq<Stamp>, want: int, lo: nat, hi: nat): Probe
    requires events != [] && lo <= hi <= events[|events| - 1].id
  {
    var mid := lo + (hi - lo) / 2;
    var got := At(events, mid);
    if got.created >= want then Moved(lo, if got.id < mid then mid else got.id)
    else if got.id >= hi then Broke
    else Moved(got.id, hi)
  }

  /** The bounds the loop keeps: a row before the wanted time, and a row at or after it. */
  ghost predicate Brackets(events: seq<Stamp>, want: int, lo: nat, hi: nat) {
    && (exists e :: e in events && e.id == lo && e.created < want)
    && (exists e :: e in events && e.id == hi && e.created >= want)
  }

  /** The smallest id stamped at or after the wanted time. */
  ghost predicate FirstAtOrAfter(events: seq<Stamp>, want: int, id: nat) {
    && (exists e :: e in events && e.id == id && e.created >= want)
    && (forall e :: e in events && e.created >= want ==> id <= e.id)
  }

  lemma {:induction false} AtIsNext(events: seq<Stamp>, id: nat)
    requires Stamped(events) && events != [] && id <= events[|events| - 1].id
    ensures forall e :: e in events && e.id >= id ==> At(events, id).id <= e.id
  {
    var init, last := events[..|events| - 1], events[|events| - 1];
    assert events == init + [last];
    InitIsOlder(events);
    if |events| > 1 && id <= events[|events| - 2].id {
      assert At(events, id) == At(init, id);
      AtIsNext(init, id);
    }
  }

  /** Every row is older than the last, and no younger than the one before it. */
  lemma InitIsOlder(events: seq<Stamp>)
    requires Stamped(events) && events != []
    ensures Stamped(events[..|events| - 1])
    ensures forall e :: e in events[..|events| - 1] ==> |events| > 1 && e.id <= events[|events| - 2].id < events[|events| - 1].id
  {
    var init := events[..|events| - 1];
    forall e | e in init ensures |events| > 1 && e.id <= events[|events| - 2].id < events[|events| - 1].id {
      var i :| 0 <= i < |init| && init[i] == e;
      assert events[i] == e;
    }
  }

  lemma Ordered(events: seq<Stamp>, a: Stamp, b: Stamp)
    requires Stamped(events) && a in events && b in events
    ensures a.id < b.id ==> a.created <= b.created
    ensures a.id == b.id ==> a == b
  {
    var i :| 0 <= i < |events| && events[i] == a;
    var j :| 0 <= j < |events| && events[j] == b;
  }

  lemma BracketsInRange(events: seq<Stamp>, want: int, lo: nat, hi: nat)
    requires Stamped(events) && Brackets(events, want, lo, hi)
    ensures events != [] && lo < hi <= events[|events| - 1].id
  {
    var a :| a in events && a.id == lo && a.created < want;
    var b :| b in events && b.id == hi && b.created >= want;
    Ordered(events, b, a);
    var j :| 0 <= j < |events| && events[j] == b;
  }

  /** A probe keeps the bracket and never breaks. It moves a bound, unless no row stands in the upper half
      of the bracket: then the loop stays where it is for good. */
  lemma ProbeKeepsBracket(events: seq<Stamp>, want: int, lo: nat, hi: nat)
    requires Stamped(events) && Brackets(events, want, lo, hi) && lo + 1 < hi
    ensures events != [] && lo < hi <= events[|events| - 1].id
    ensures var p := ProbeStep(events, want, lo, hi);
            && p.Moved? && Brackets(events, want, p.lo, p.hi)
            && (p == Moved(lo, hi) || p.hi - p.lo < hi - lo)
            && (p == Moved(lo, hi) <==> forall e :: e in events ==> !(lo + (hi - lo) / 2 <= e.id < hi))
  {
    BracketsInRange(events, want, lo, hi);
    var mid := lo + (hi - lo) / 2;
    var got := At(events, mid);
    AtIsNext(events, mid);
    var b :| b in events && b.id == hi && b.created >= want;
    assert got.id <= hi;
    Ordered(events, got, b);
    Ordered(events, b, got);
    var a :| a in events && a.id == lo && a.created < want;
  }

  lemma AdjacentIsFirst(events: seq<Stamp>, want: int, lo: nat, hi: nat)
    requires Stamped(events) && Brackets(events, want, lo, hi) && lo + 1 >= hi
    ensures FirstAtOrAfter(events, want, hi)
  {
    BracketsInRange(events, want, lo, hi);
    var a :| a in events && a.id == lo && a.created < want;
    forall e | e in events && e.created >= want ensures hi <= e.id {
      Ordered(events, e, a);
      Ordered(events, a, e);
    }
  }

  lemma ContiguousHas(events: seq<Stamp>, a: Stamp, b: Stamp, id: nat)
    requires Stamped(events) && Contiguous(events) && a in events && b in events && a.id <= id <= b.id
    ensures exists e :: e in events && e.id == id
  {
    var i :| 0 <= i < |events| && events[i] == a;
    ContiguousIDs(events, i);
    var j :| 0 <= j < |events| && events[j] == b;
    ContiguousIDs(events, j);
    var k := id - events[0].id;
    ContiguousIDs(events, k);
    assert events[k] in events;
  }

  lemma {:induction false} ContiguousIDs(events: seq<Stamp>, i: nat)
    requires Contiguous(events) && i < |events|
    ensures events[i].id == events[0].id + i
  {
    if i > 0 {
      ContiguousIDs(events, i - 1);
    }
  }

  lemma ContiguousMoves(events: seq<Stamp>, want: int, lo: nat, hi: nat)
    requires Stamped(events) && Contiguous(events) && Brackets(events, want, lo, hi) && lo + 1 < hi
    ensures events != [] && lo < hi <= events[|events| - 1].id
    ensures ProbeStep(events, want, lo, hi) != Moved(lo, hi)
  {
    ProbeKeepsBracket(events, want, lo, hi);
    var a :| a in events && a.id == lo && a.created < want;
    var b :| b in events && b.id == hi && b.created >= want;
    ContiguousHas(events, a, b, lo + (hi - lo) / 2);
  }

  /** Without gaps a probe leaves at most half of the bounds, rounded up: some twenty probes for a million events. */
  lemma ProbeHalves(events: seq<Stamp>, want: int, lo: nat, hi: nat)
    requires Stamped(events) && Contiguous(events) && Brackets(events, want, lo, hi) && lo + 1 < hi
    ensures events != [] && lo < hi <= events[|events| - 1].id
    ensures var p := ProbeStep(events, want, lo, hi);
            p.Moved? && p.hi - p.lo <= (hi - lo + 1) / 2
  {
    hide At, Contiguous;
    ProbeKeepsBracket(events, want, lo, hi);
    var a :| a in events && a.id == lo && a.created < want;
    var b :| b in events && b.id == hi && b.created >= want;
    var mid := lo + (hi - lo) / 2;
    ContiguousHas(events, a, b, mid);
    AtIsNext(events, mid);
  }

  /** firstEventIDAtOrAfter, for ids without gaps: it ends with the smallest id at or after the time, or
      reports that no event is that late. */
  method FirstEventIDAtOrAfter(events: seq<Stamp>, want: int) returns (found: Option<nat>)
    requires Stamped(events) && Contiguous(events)
    ensures found.Some? ==> FirstAtOrAfter(events, want, found.value)
    ensures found.None? ==> forall e :: e in events ==> e.created < want
  {
    if |events| == 0 {
      return None;
    }
    var loID, hiID := events[0].id, events[|events| - 1].id;
    AtLast(events);
    if At(events, hiID).created < want {
      return None;
    }
    AtFirst(events);
    if At(events, loID).created >= want {
      FirstIsFirst(events, want);
      return Some(loID);
    }
    WholeTableBrackets(events, want);
    var hi := Bisect(events, want, loID, hiID);
    return Some(hi);
  }

  /** The loop of firstEventIDAtOrAfter. */
  method Bisect(events: seq<Stamp>, want: int, loID: nat, hiID: nat) returns (found: nat)
    requires Stamped(events) && Contiguous(events) && Brackets(events, want, loID, hiID)
    ensures FirstAtOrAfter(events, want, found)
  {
    hide At, Brackets, Stamped, Contiguous, FirstAtOrAfter;
    var lo, hi := loID, hiID;
    BracketsInRange(events, want, lo, hi);
    while lo + 1 < hi
      invariant lo < hi && Brackets(events, want, lo, hi)
      decreases hi - lo
    {
      ProbeKeepsBracket(events, want, lo, hi);
      ContiguousMoves(events, want, lo, hi);
      ghost var p := ProbeStep(events, want, lo, hi);
      BracketsInRange(events, want, p.lo, p.hi);
      var mid := lo + (hi - lo) / 2;
      var got := At(events, mid);
      if got.created >= want {
        hi := got.id;
        if got.id < mid {
          hi := mid;
        }
      } else if got.id >= hi {
        break;
      } else {
        lo := got.id;
      }
    }
    AdjacentIsFirst(events, want, lo, hi);
    return hi;
  }

  lemma FirstIsFirst(events: seq<Stamp>, want: int)
    requires Stamped(events) && events != [] && events[0].created >= want
    ensures FirstAtOrAfter(events, want, events[0].id)
  {
    assert events[0] in events;
    AtFirst(events);
  }

  lemma AtLast(events: seq<Stamp>)
    requires Stamped(events) && events != []
    ensures At(events, events[|events| - 1].id) == events[|events| - 1]
    ensures forall e :: e in events ==> e.created <= events[|events| - 1].created
  {
    forall e | e in events ensures e.created <= events[|events| - 1].created {
      var i :| 0 <= i < |events| && events[i] == e;
    }
  }

  lemma {:induction false} AtFirst(events: seq<Stamp>)
    requires Stamped(events) && events != []
    ensures events[0].id <= events[|events| - 1].id && At(events, events[0].id) == events[0]
    ensures forall e :: e in events ==> events[0].id <= e.id
  {
    if |events| > 1 {
      AtFirst(events[..|events| - 1]);
    }
    forall e | e in events ensures events[0].id <= e.id {
      var i :| 0 <= i < |events| && events[i] == e;
    }
  }

  // ---------------------------------------------------------------- the window of a search

  /** SearchSessionsInWindow's id range: a lower bound, an upper bound, or that nothing can match. */
  datatype IDRange = Nothing | IDs(from: Option<nat>, below: Option<nat>)

  predicate Selects(r: IDRange, id: nat) {
    r.IDs? && (r.from.Some? ==> r.from.value <= id) && (r.below.Some? ==> id < r.below.value)
  }

  /** The range built from two searches selects exactly the events created in [since, until). */
  method WindowRange(events: seq<Stamp>, since: Option<int>, until: Option<int>) returns (r: IDRange)
    requires Stamped(events) && Contiguous(events)
    ensures forall e :: e in events ==>
              (Selects(r, e.id) <==> (since.Some? ==> since.value <= e.created) && (until.Some? ==> e.created < until.value))
  {
    var from: Option<nat> := None;
    var below: Option<nat> := None;
    if since.Some? {
      var lo := FirstEventIDAtOrAfter(events, since.value);
      if lo.None? {
        return Nothing;
      }
      from := lo;
      BoundSplits(events, since.value, lo.value);
    }
    if until.Some? {
      var hi := FirstEventIDAtOrAfter(events, until.value);
      if hi.Some? {
        below := hi;
        BoundSplits(events, until.value, hi.value);
      }
    }
    r := IDs(from, below);
  }

  lemma BoundSplits(events: seq<Stamp>, want: int, id: nat)
    requires Stamped(events) && FirstAtOrAfter(events, want, id)
    ensures forall e :: e in events ==> (id <= e.id <==> want <= e.created)
  {
    var f :| f in events && f.id == id && f.created >= want;
    forall e | e in events ensures id <= e.id <==> want <= e.created {
      Ordered(events, f, e);
      Ordered(events, e, f);
    }
  }

  // ---------------------------------------------------------------- gaps

  /** The loop run for at most `fuel` probes; None while it has not ended. */
  function Search(events: seq<Stamp>, want: int, lo: nat, hi: nat, fuel: nat): Option<nat>
    requires events != [] && lo <= hi <= events[|events| - 1].id
    decreases fuel
  {
    if lo + 1 >= hi then Some(hi)
    else if fuel == 0 then None
    else
      match ProbeStep(events, want, lo, hi)
      case Broke => Some(hi)
      case Moved(lo', hi') =>
        if lo' <= hi' <= events[|events| - 1].id then Search(events, want, lo', hi', fuel - 1) else None
  }

  /** Whatever gaps the ids have, an answer the loop does give is right. */
  lemma {:induction false} AnyAnswerIsFirst(events: seq<Stamp>, want: int, lo: nat, hi: nat, fuel: nat)
    requires Stamped(events) && Brackets(events, want, lo, hi)
    requires events != [] && lo <= hi <= events[|events| - 1].id
    ensures var found := Search(events, want, lo, hi, fuel);
            found.Some? ==> FirstAtOrAfter(events, want, found.value) && exists e :: e in events && e.id == found.value - 1
    decreases fuel
  {
    if lo + 1 >= hi {
      BracketsInRange(events, want, lo, hi);
      AdjacentIsFirst(events, want, lo, hi);
    } else if fuel > 0 {
      ProbeKeepsBracket(events, want, lo, hi);
      var p := ProbeStep(events, want, lo, hi);
      BracketsInRange(events, want, p.lo, p.hi);
      AnyAnswerIsFirst(events, want, p.lo, p.hi, fuel - 1);
    }
  }

  lemma {:induction false} ContiguousEnds(events: seq<Stamp>, want: int, lo: nat, hi: nat, fuel: nat)
    requires Stamped(events) && Contiguous(events) && Brackets(events, want, lo, hi)
    requires events != [] && lo <= hi <= events[|events| - 1].id && hi - lo <= fuel
    ensures Search(events, want, lo, hi, fuel).Some?
    decreases fuel
  {
    if lo + 1 < hi {
      ProbeKeepsBracket(events, want, lo, hi);
      ContiguousMoves(events, want, lo, hi);
      var p := ProbeStep(events, want, lo, hi);
      BracketsInRange(events, want, p.lo, p.hi);
      ContiguousEnds(events, want, p.lo, p.hi, fuel - 1);
    }
  }

  /** The search for a time, from the whole table, ends after some number of probes. */
  ghost predicate Ends(events: seq<Stamp>, want: int)
    requires Stamped(events) && events != []
  {
    events[0].created < want <= events[|events| - 1].created ==> exists fuel: nat :: EndsWithin(events, want, fuel)
  }

  ghost predicate EndsWithin(events: seq<Stamp>, want: int, fuel: nat)
    requires events != []
  {
    var lo, hi := events[0].id, events[|events| - 1].id;
    lo <= hi && Search(events, want, lo, hi, fuel).Some?
  }

  lemma WholeTableBrackets(events: seq<Stamp>, want: int)
    requires Stamped(events) && events != [] && events[0].created < want <= events[|events| - 1].created
    ensures Brackets(events, want, events[0].id, events[|events| - 1].id)
  {
    assert events[0] in events && events[|events| - 1] in events;
  }

  /** Within so many probes the loop comes to bounds, more than one id apart, with no row in the upper half:
      the branch for gaps has nothing to take there, and the bounds stay. */
  predicate MeetsGap(events: seq<Stamp>, want: int, lo: nat, hi: nat, probes: nat)
    requires events != [] && lo <= hi <= events[|events| - 1].id
    decreases probes
  {
    && lo + 1 < hi
    && (|| (forall e :: e in events ==> !(lo + (hi - lo) / 2 <= e.id < hi))
        || (&& probes > 0
            && var p := ProbeStep(events, want, lo, hi);
               p.Moved? && p.lo <= p.hi <= events[|events| - 1].id && MeetsGap(events, want, p.lo, p.hi, probes - 1)))
  }

  /** Bounds that do not move never will. */
  lemma {:induction false} StuckStays(events: seq<Stamp>, want: int, lo: nat, hi: nat, fuel: nat)
    requires events != [] && lo + 1 < hi <= events[|events| - 1].id && ProbeStep(events, want, lo, hi) == Moved(lo, hi)
    ensures Search(events, want, lo, hi, fuel).None?
    decreases fuel
  {
    hide ProbeStep;
    if fuel > 0 {
      StuckStays(events, want, lo, hi, fuel - 1);
    }
  }

  /** For every table, gaps and ties included: the loop ends, and then within as many probes as the bounds are
      apart, if and only if it never meets such a gap. */
  lemma {:induction false} SearchEndsIffNoGapMet(events: seq<Stamp>, want: int, lo: nat, hi: nat, fuel: nat, probes: nat)
    requires Stamped(events) && Brackets(events, want, lo, hi)
    requires events != [] && lo <= hi <= events[|events| - 1].id && hi - lo <= fuel && hi - lo <= probes
    ensures Search(events, want, lo, hi, fuel).Some? <==> !MeetsGap(events, want, lo, hi, probes)
    decreases fuel
  {
    hide ProbeStep, Brackets, Stamped;
    if lo + 1 < hi {
      ProbeKeepsBracket(events, want, lo, hi);
      var p := ProbeStep(events, want, lo, hi);
      if p == Moved(lo, hi) {
        StuckStays(events, want, lo, hi, fuel);
      } else {
        BracketsInRange(events, want, p.lo, p.hi);
        SearchEndsIffNoGapMet(events, want, p.lo, p.hi, fuel - 1, probes - 1);
      }
    }
  }

  lemma {:induction false} MoreFuel(events: seq<Stamp>, want: int, lo: nat, hi: nat, fuel: nat, more: nat)
    requires events != [] && lo <= hi <= events[|events| - 1].id && fuel <= more
    requires Search(events, want, lo, hi, fuel).Some?
    ensures Search(events, want, lo, hi, more) == Search(events, want, lo, hi, fuel)
    decreases fuel
  {
    hide ProbeStep;
    if lo + 1 < hi {
      var p := ProbeStep(events, want, lo, hi);
      if p.Moved? {
        MoreFuel(events, want, p.lo, p.hi, fuel - 1, more - 1);
      }
    }
  }

  /** Whether a search from the whole table meets such a gap. */
  predicate SearchMeetsGap(events: seq<Stamp>, want: int)
    requires events != []
  {
    var lo, hi := events[0].id, events[|events| - 1].id;
    events[0].created < want <= events[|events| - 1].created && lo <= hi && MeetsGap(events, want, lo, hi, hi - lo)
  }

  /** The search for any time in any table ends if and only if it meets no such gap. */
  lemma EndsIffNoGapMet(events: seq<Stamp>, want: int)
    requires Stamped(events) && events != []
    ensures Ends(events, want) <==> !SearchMeetsGap(events, want)
  {
    hide Search, MeetsGap, Stamped;
    if events[0].created < want <= events[|events| - 1].created {
      var lo, hi := events[0].id, events[|events| - 1].id;
      WholeTableBrackets(events, want);
      BracketsInRange(events, want, lo, hi);
      SearchEndsIffNoGapMet(events, want, lo, hi, hi - lo, hi - lo);
      if Ends(events, want) {
        var fuel: nat :| EndsWithin(events, want, fuel);
        var more := if fuel < hi - lo then hi - lo else fuel;
        MoreFuel(events, want, lo, hi, fuel, more);
        SearchEndsIffNoGapMet(events, want, lo, hi, more, hi - lo);
      }
      if !SearchMeetsGap(events, want) {
        assert EndsWithin(events, want, hi - lo);
      }
    }
  }

  // ---------------------------------------------------------------- every search

  /** No gap between two events of different seconds. */
  ghost predicate NoGapBetweenSeconds(events: seq<Stamp>) {
    forall i :: 0 <= i < |events| - 1 && events[i].created < events[i + 1].created ==> events[i + 1].id == events[i].id + 1
  }

  /** For every table: without gaps every search ends, and if every search ends there is no gap between two
      events of different seconds. */
  lemma EverySearchEnds(events: seq<Stamp>)
    requires Stamped(events) && events != []
    ensures Contiguous(events) ==> forall want :: Ends(events, want)
    ensures (forall want :: Ends(events, want)) ==> NoGapBetweenSeconds(events)
  {
    if Contiguous(events) {
      forall want ensures Ends(events, want) {
        if events[0].created < want <= events[|events| - 1].created {
          WholeTableBrackets(events, want);
          BracketsInRange(events, want, events[0].id, events[|events| - 1].id);
          ContiguousEnds(events, want, events[0].id, events[|events| - 1].id, events[|events| - 1].id);
          assert EndsWithin(events, want, events[|events| - 1].id);
        }
      }
    }
    if forall want :: Ends(events, want) {
      forall i | 0 <= i < |events| - 1 && events[i].created < events[i + 1].created
        ensures events[i + 1].id == events[i].id + 1
      {
        EndingMeansNoGap(events, i);
      }
    }
  }

  /** When no two events share a second the two meet: every search ends if and only if the ids have no gap. */
  lemma EverySearchEndsIffContiguous(events: seq<Stamp>)
    requires Stamped(events) && StrictlyLater(events) && events != []
    ensures (forall want :: Ends(events, want)) <==> Contiguous(events)
  {
    EverySearchEnds(events);
  }

  /** A search that ends at a new second found it right after the second before. */
  lemma EndingMeansNoGap(events: seq<Stamp>, i: nat)
    requires Stamped(events) && i < |events| - 1 && events[i].created < events[i + 1].created
    requires Ends(events, events[i + 1].created)
    ensures events[i + 1].id == events[i].id + 1
  {
    hide Search;
    var want := events[i + 1].created;
    WholeTableBrackets(events, want);
    var fuel: nat :| EndsWithin(events, want, fuel);
    AnyAnswerIsFirst(events, want, events[0].id, events[|events| - 1].id, fuel);
    NoGapBefore(events, i, Search(events, want, events[0].id, events[|events| - 1].id, fuel).value);
  }

  lemma NoGapBefore(events: seq<Stamp>, i: nat, found: nat)
    requires Stamped(events) && i < |events| - 1 && events[i].created < events[i + 1].created
    requires FirstAtOrAfter(events, events[i + 1].created, found) && exists e :: e in events && e.id == found - 1
    ensures events[i + 1].id == events[i].id + 1
  {
    var f :| f in events && f.id == found && f.created >= events[i + 1].created;
    var before :| before in events && before.id == found - 1;
    var j :| 0 <= j < |events| && events[j] == before;
    var k :| 0 <= k < |events| && events[k] == f;
    assert events[i + 1] in events;
    assert k == i + 1;
  }

  // ---------------------------------------------------------------- tables with gaps

  /** Three seconds, and a gap before the last: the search for it never ends. */
  lemma GapBeforeTheAnswer()
    ensures var events := [Stamp(1, 1), Stamp(2, 2), Stamp(100, 3)];
            Stamped(events) && StrictlyLater(events) && !Ends(events, 3)
  {
    var events := [Stamp(1, 1), Stamp(2, 2), Stamp(100, 3)];
    if Ends(events, 3) {
      EndingMeansNoGap(events, 1);
    }
  }

  /** A gap inside one second does no harm: every search of this table ends. */
  lemma GapInsideASecond()
    ensures var events := [Stamp(1, 10), Stamp(5, 10), Stamp(6, 11)];
            Stamped(events) && !Contiguous(events) && forall want :: Ends(events, want)
  {
    var events := [Stamp(1, 10), Stamp(5, 10), Stamp(6, 11)];
    assert events[1].id != events[0].id + 1;
    forall want ensures Ends(events, want) {
      if events[0].created < want <= events[|events| - 1].created {
        assert At(events, 3) == Stamp(5, 10);
        assert ProbeStep(events, want, 1, 6) == Moved(5, 6);
        assert EndsWithin(events, want, 1);
      }
    }
  }

  /** A gap inside the second searched for can: the answer follows its second's predecessor directly, and
      the search still never reaches it. */
  lemma GapAfterTheAnswer()
    ensures var events := [Stamp(1, 1), Stamp(2, 2), Stamp(10, 2)];
            Stamped(events) && NoGapBetweenSeconds(events) && !Ends(events, 2)
  {
    var events := [Stamp(1, 1), Stamp(2, 2), Stamp(10, 2)];
    EndsIffNoGapMet(events, 2);
  }
}
