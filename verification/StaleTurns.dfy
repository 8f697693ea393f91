/** Which stored turns one new event makes stale. */
module StaleTurns {
  import opened Options
  import opened Events
  import opened TurnRule
  import opened IndexRules
  import opened TurnIndex
  import opened IndexFacts
  import opened IndexProtocol
  import opened Dedup
  import opened Cache
  import opened CacheSafety
  import opened Freshness

  /** The turn number the rule gives a new event. */
  function OwnTurn(rules: Rules, log: seq<EventRow>, e: EventRow): nat {
    SeqOf(TurnIDs(Tagged(rules, log + [e])), LastTurnID(rules, log + [e]))
  }

  function PairsAfter(rules: Rules, log: seq<EventRow>, e: EventRow): Pairs {
    PairsOf(CandidatesOf(rules, Tagged(rules, log + [e])))
  }

  /** The new event has a twin, and event_turns puts that twin in turn k. */
  predicate TwinIn(rules: Rules, log: seq<EventRow>, e: EventRow, k: nat) {
    var p, eventTurns := PairsAfter(rules, log, e), EventTurnsOf(Tagged(rules, log + [e]));
    e.id in p && p[e.id] in eventTurns && eventTurns[p[e.id]] == k
  }

  lemma IngestIntoCurrent<B>(build: Build<B>, s: Server<B>, e: EventRow)
    requires Inv(s.session) && Current(s.session) && NewestID(s.session.log) < e.id
    ensures var s' := Act(build, s, IndexStep(Ingest(e)));
            && Ascending(s.session.log + [e]) && s.session.tables == IndexOf(RulesOf(s.session), s.session.log)
            && s'.session.tables == IndexOf(RulesOf(s.session), s.session.log + [e])
            && s'.stored == s.stored && s'.version == s.version
  {
    hide IndexOf, StateOf, UpTo, After, WriteEventTurn;
    UpToSnoc(s.session.log, e, 0);
    IndexCurrentExtends(s.session, e, s.session.row.value);
  }

  /** Nothing stored can have read past the log. */
  lemma StoredThroughIsOld<B>(rules: Rules, build: Build<B>, log: seq<EventRow>, k: nat, stored: Stored<B>)
    requires Ascending(log) && GoodStored(rules, build, log, k, stored)
    ensures stored.through <= NewestID(log)
  {
    hide Fingerprint, TurnIDs, Keep, Tagged, CandidatesOf, PairsOf;
    var candidates, events :| BuiltFrom(rules, build, log, k, stored, candidates, events);
    var n: nat :| n <= |log| && HadTurn(rules, log, n, k) && events == EventsAt(rules, log, n, k);
    var rows := Tagged(rules, log[..n]);
    KeepMembers(rows, {TurnIDs(rows)[k - 1]});
    var last := events[|events| - 1];
    assert last in rows;
    var i :| 0 <= i < |rows| && rows[i] == last;
    TaggedAt(rules, log[..n], i);
    NewestIsLargest(log);
    assert log[i] in log;
  }

  lemma OwnTurnRow(rules: Rules, log: seq<EventRow>, e: EventRow)
    requires Ascending(log + [e])
    ensures OwnTurn(rules, log, e) in IndexOf(rules, log + [e]).turns
    ensures IndexOf(rules, log + [e]).turns[OwnTurn(rules, log, e)].lastEventID == e.id
  {
    hide TurnIDs, EventTurnsOf, CandidatesOf, SeqOf, Tagged, LastTurnID;
    TaggedSnoc(rules, log, e);
    LastRowsTurn(Tagged(rules, log), TurnEvent(LastTurnID(rules, log + [e]), e));
  }

  /** The last of some rows is the last event of its turn. */
  lemma LastRowsTurn(rows: seq<TurnEvent>, b: TurnEvent)
    ensures var k := SeqOf(TurnIDs(rows + [b]), b.turnID);
            k in TurnsOf(rows + [b]) && TurnsOf(rows + [b])[k].lastEventID == b.row.id
  {
    hide TurnIDs, Keep, SeqOf;
    TurnIDsMembers(rows + [b]);
    assert (rows + [b])[|rows|] == b;
    KeepSnoc(rows, b, {b.turnID});
  }

  /** Turns other than the event's own keep their rows. */
  lemma OtherTurnRow(rules: Rules, log: seq<EventRow>, e: EventRow, k: nat)
    requires Ascending(log + [e]) && k in IndexOf(rules, log + [e]).turns && k != OwnTurn(rules, log, e)
    ensures k in IndexOf(rules, log).turns && IndexOf(rules, log).turns[k] == IndexOf(rules, log + [e]).turns[k]
  {
    hide TurnIDs, Keep, Summary, EventsOfTurn, EventTurnsOf, CandidatesOf, SeqOf, TurnsOf;
    var rows := Tagged(rules, log);
    var b := TurnEvent(LastTurnID(rules, log + [e]), e);
    TaggedSnoc(rules, log, e);
    if b.turnID in TurnIDs(rows) {
      TurnsOfSameTurn(rows, b);
    } else {
      TurnsOfNewTurn(rows, b);
      NewTurn(rows, b);
      SeqOfLastNew(rows, b);
    }
  }

  lemma TwinInCandidates(rules: Rules, rows: seq<TurnEvent>, y: nat, k: nat)
    requires Rising(rows)
    requires exists c :: c in CandidatesOf(rules, rows) && c.eventID == y
    ensures y in EventTurnsOf(rows)
    ensures y in TurnCandidates(CandidatesOf(rules, rows), k) <==> EventTurnsOf(rows)[y] == k
  {
    hide CandidatesOf, TurnIDs, SeqOf, EventTurnsOf, TurnCandidates;
    TurnCandidatesMembers(CandidatesOf(rules, rows), k, y);
    forall c | c in CandidatesOf(rules, rows) && c.eventID == y
      ensures y in EventTurnsOf(rows) && c.turnSeq == EventTurnsOf(rows)[y]
    {
      CandidateInItsTurn(rules, rows, c);
      var b :| b in rows && b.row.id == y && c.turnSeq == SeqOf(TurnIDs(rows), b.turnID);
      EventTurnsAt(rows, b);
    }
  }

  /** The fingerprint of a turn other than the event's own moves exactly when the event's twin is in it. */
  lemma FingerprintMovesWithTwin(rules: Rules, log: seq<EventRow>, e: EventRow, k: nat)
    requires Ascending(log + [e]) && k != OwnTurn(rules, log, e)
    ensures var before, after := CandidatesOf(rules, Tagged(rules, log)), CandidatesOf(rules, Tagged(rules, log + [e]));
            Fingerprint(after, k) != Fingerprint(before, k) <==> TwinIn(rules, log, e, k)
  {
    hide PairsOf, TurnCandidates, FingerprintText, CandidatesOf, Tagged, TurnIDs, EventTurnsOf, SeqOf, Fingerprint;
    var rows, rows' := Tagged(rules, log), Tagged(rules, log + [e]);
    var b := TurnEvent(LastTurnID(rules, log + [e]), e);
    TaggedSnoc(rules, log, e);
    CandidatesOfSnoc(rules, rows, b);
    TaggedRising(rules, log + [e]);
    CandidatesRise(rules, rows');
    match rules.candidate(e) {
      case None =>
        NotACandidate(rules, rows, b);
      case Some(f) =>
        var cands, c := CandidatesOf(rules, rows), Candidate(e.id, OwnTurn(rules, log, e), f.key, f.source);
        NewCopyMovesFingerprint(cands, c, k);
        TurnCandidatesSnoc(cands, c, k);
        if e.id in PairsOf(cands + [c]) {
          PairsAreSymmetric(cands + [c], e.id);
          TwinInCandidates(rules, rows', PairsOf(cands + [c])[e.id], k);
        }
    }
  }

  lemma NotACandidate(rules: Rules, rows: seq<TurnEvent>, b: TurnEvent)
    requires Rising(rows + [b]) && CandidatesOf(rules, rows + [b]) == CandidatesOf(rules, rows)
    ensures b.row.id !in PairsOf(CandidatesOf(rules, rows))
  {
    hide CandidatesOf, PairsOf;
    assert forall i :: 0 <= i < |rows| ==> (rows + [b])[i] == rows[i];
    CandidatesRise(rules, rows + [b]);
    CandidatesBelow(rules, rows);
    forall x | x in rows ensures x.row.id < b.row.id {
      var i :| 0 <= i < |rows| && rows[i] == x;
      assert (rows + [b])[i] == x && (rows + [b])[|rows|] == b;
    }
    if b.row.id in PairsOf(CandidatesOf(rules, rows)) {
      PairedIsCandidate(CandidatesOf(rules, rows), b.row.id);
    }
  }

  /** Storing one event into a current session whose turns are all fresh makes stale exactly its own turn
      and, when it pairs, the turn its twin is in. */
  lemma OneEventMakesStale<B>(build: Build<B>, s: Server<B>, e: EventRow, k: nat)
    requires ServerInv(build, s) && Current(s.session) && NewestID(s.session.log) < e.id
    requires forall j :: j in s.session.tables.turns ==> !Stale(s, j)
    requires k in Act(build, s, IndexStep(Ingest(e))).session.tables.turns
    ensures Stale(Act(build, s, IndexStep(Ingest(e))), k) <==>
            k == OwnTurn(RulesOf(s.session), s.session.log, e) || TwinIn(RulesOf(s.session), s.session.log, e, k)
  {
    hide Inv, Act, Fingerprint, GoodStored, TurnsOf, EventTurnsOf, CandidatesOf, OwnTurn, TwinIn, Tagged, TablesArePrefix;
    var log := s.session.log;
    IngestIntoCurrent(build, s, e);
    if k == OwnTurn(RulesOf(s.session), log, e) {
      OwnTurnRow(RulesOf(s.session), log, e);
      if k in s.stored {
        SessionAscends(s.session);
        StoredThroughIsOld(RulesOf(s.session), build, log, k, s.stored[k]);
      }
    } else {
      OtherTurnRow(RulesOf(s.session), log, e, k);
      FingerprintMovesWithTwin(RulesOf(s.session), log, e, k);
      assert !Stale(s, k);
    }
  }

  lemma SessionAscends(s: Session)
    requires Inv(s)
    ensures Ascending(s.log)
  {
  }
}
