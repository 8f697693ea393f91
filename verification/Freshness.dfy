/** What freshness means for a stored turn, and what one new event does to it. */
module Freshness {
  import opened Options
  import opened Events
  import opened TurnRule
  import opened IndexRules
  import opened TurnIndex
  import opened IndexFacts
  import opened IndexProtocol
  import opened Dedup
  import opened Cache
  import opened CacheSafety

  /** The same twins for every row given. */
  ghost predicate SamePairsOn(rows: seq<TurnEvent>, p: Pairs, q: Pairs) {
    forall b :: b in rows ==> TwinOf(p, b.row.id) == TwinOf(q, b.row.id) && (b.row.id in p <==> b.row.id in q)
  }

  /** A builder that looks pairs up only for the rows it is given. */
  ghost predicate LooksOnlyAtItsRows<B(!new)>(build: Build<B>, version: int) {
    forall rows, p, q :: rows != [] && Rising(rows) && SamePairsOn(rows, p, q) ==>
      build(version, rows, p) == build(version, rows, q)
  }

  // ---------------------------------------------------------------- candidates of a growing log

  lemma {:induction false} CandidatesOfPrefix(rules: Rules, rows: seq<TurnEvent>, n: nat)
    requires n <= |rows|
    ensures CandidatesOf(rules, rows[..n]) <= CandidatesOf(rules, rows)
  {
    hide CandidatesOf;
    if n == |rows| {
      assert rows[..n] == rows;
    } else {
      var init := rows[..|rows| - 1];
      CandidatesOfPrefix(rules, init, n);
      assert init[..n] == rows[..n];
      assert rows == init + [rows[|rows| - 1]];
      CandidatesOfSnoc(rules, init, rows[|rows| - 1]);
    }
  }

  /** Each candidate is an event of the turn it is filed under. */
  lemma {:induction false} CandidateInItsTurn(rules: Rules, rows: seq<TurnEvent>, c: Candidate)
    requires c in CandidatesOf(rules, rows)
    ensures exists b :: b in rows && b.row.id == c.eventID && c.turnSeq == SeqOf(TurnIDs(rows), b.turnID)
  {
    hide TurnIDs, SeqOf;
    if rows != [] {
      hide CandidatesOf;
      var init, last := rows[..|rows| - 1], rows[|rows| - 1];
      assert rows == init + [last];
      CandidatesOfSnoc(rules, init, last);
      if c in CandidatesOf(rules, init) {
        CandidateInItsTurn(rules, init, c);
        var b :| b in init && b.row.id == c.eventID && c.turnSeq == SeqOf(TurnIDs(init), b.turnID);
        TurnIDsMembers(init);
        SeqOfKept(init, last, b.turnID);
        assert b in rows;
      } else {
        assert last in rows;
      }
    }
  }

  lemma {:induction false} TurnCandidatesMembers(cands: seq<Candidate>, k: nat, id: nat)
    ensures id in TurnCandidates(cands, k) <==> exists c :: c in cands && c.turnSeq == k && c.eventID == id
  {
    if cands != [] {
      var init, last := cands[..|cands| - 1], cands[|cands| - 1];
      assert cands == init + [last];
      TurnCandidatesMembers(init, k, id);
      assert last in cands;
      if exists c :: c in init && c.turnSeq == k && c.eventID == id {
        var c :| c in init && c.turnSeq == k && c.eventID == id;
        assert c in cands;
      }
    }
  }

  /** Only candidates are ever paired, and the twin is an event id, so not 0. */
  lemma PairedIsCandidate(cands: seq<Candidate>, id: nat)
    requires RisingCandidates(cands) && id in PairsOf(cands)
    ensures exists c :: c in cands && c.eventID == id
    ensures TwinOf(PairsOf(cands), id) > 0
  {
    hide PairsOf;
    PairsAreSymmetric(cands, id);
    var y := PairsOf(cands)[id];
    var a, b :| a in cands && b in cands && a.eventID == id && b.eventID == y && a.key == b.key && a.source == Other(b.source);
    var j :| 0 <= j < |cands| && cands[j] == b;
  }

  /** Equal fingerprints mean equal pairs on the turn: a candidate the older reading lacked would show. */
  lemma SameFingerprintSamePairs(rules: Rules, rows: seq<TurnEvent>, older: seq<Candidate>, k: nat)
    requires Rising(rows) && 1 <= k <= |TurnIDs(rows)|
    requires older <= CandidatesOf(rules, rows)
    requires Fingerprint(older, k) == Fingerprint(CandidatesOf(rules, rows), k)
    ensures SamePairsOn(EventsOfTurn(rows, k), PairsOf(older), PairsOf(CandidatesOf(rules, rows)))
  {
    hide PairsOf, TurnCandidates, FingerprintText, CandidatesOf, TurnIDs, SeqOf, Keep;
    var cands := CandidatesOf(rules, rows);
    CandidatesRise(rules, rows);
    FingerprintInjective(TurnCandidates(older, k), PairsOf(older), TurnCandidates(cands, k), PairsOf(cands));
    forall b | b in EventsOfTurn(rows, k)
      ensures TwinOf(PairsOf(older), b.row.id) == TwinOf(PairsOf(cands), b.row.id)
      ensures b.row.id in PairsOf(older) <==> b.row.id in PairsOf(cands)
    {
      SameTwin(rules, rows, older, k, b);
    }
  }

  lemma CandidateOfTurn(rules: Rules, rows: seq<TurnEvent>, k: nat, b: TurnEvent, c: Candidate)
    requires Rising(rows) && 1 <= k <= |TurnIDs(rows)| && b in EventsOfTurn(rows, k)
    requires c in CandidatesOf(rules, rows) && c.eventID == b.row.id
    ensures c.turnSeq == k
  {
    hide CandidatesOf, TurnIDs, SeqOf, Keep;
    CandidateInItsTurn(rules, rows, c);
    var d :| d in rows && d.row.id == c.eventID && c.turnSeq == SeqOf(TurnIDs(rows), d.turnID);
    KeepMembers(rows, {TurnIDs(rows)[k - 1]});
    var i :| 0 <= i < |rows| && rows[i] == d;
    var j :| 0 <= j < |rows| && rows[j] == b;
    assert i == j;
    TurnIDsDistinct(rows);
    SeqOfUnique(TurnIDs(rows), k - 1);
  }

  lemma SameTwin(rules: Rules, rows: seq<TurnEvent>, older: seq<Candidate>, k: nat, b: TurnEvent)
    requires Rising(rows) && 1 <= k <= |TurnIDs(rows)| && b in EventsOfTurn(rows, k)
    requires older <= CandidatesOf(rules, rows) && RisingCandidates(CandidatesOf(rules, rows))
    requires TurnCandidates(older, k) == TurnCandidates(CandidatesOf(rules, rows), k)
    requires forall id :: id in TurnCandidates(older, k) ==> TwinOf(PairsOf(older), id) == TwinOf(PairsOf(CandidatesOf(rules, rows)), id)
    ensures TwinOf(PairsOf(older), b.row.id) == TwinOf(PairsOf(CandidatesOf(rules, rows)), b.row.id)
    ensures b.row.id in PairsOf(older) <==> b.row.id in PairsOf(CandidatesOf(rules, rows))
  {
    hide PairsOf, TurnCandidates, CandidatesOf, TurnIDs, Keep;
    var cands, id := CandidatesOf(rules, rows), b.row.id;
    if id in PairsOf(cands) {
      PairedIsCandidate(cands, id);
      var c :| c in cands && c.eventID == id;
      CandidateOfTurn(rules, rows, k, b, c);
      TurnCandidatesMembers(cands, k, id);
    }
    if id in PairsOf(older) {
      assert older == cands[..|older|];
      PairedIsCandidate(older, id);
      var c :| c in older && c.eventID == id;
      CandidateOfTurn(rules, rows, k, b, c);
      TurnCandidatesMembers(cands, k, id);
    }
  }

  // ---------------------------------------------------------------- freshness

  /** A prefix of a turn's events that reaches its newest event is all of them. */
  lemma SameNewestSameEvents(events: seq<TurnEvent>, n: nat)
    requires Rising(events) && 0 < n <= |events|
    requires events[n - 1].row.id >= events[|events| - 1].row.id
    ensures n == |events|
  {
  }

  lemma EventsAtIsPrefix(rules: Rules, log: seq<EventRow>, n: nat, k: nat)
    requires n <= |log| && HadTurn(rules, log, n, k)
    ensures HadTurn(rules, log, |log|, k) && EventsAt(rules, log, n, k) <= EventsAt(rules, log, |log|, k)
  {
    hide TurnIDs, Keep, Tagged;
    TurnKept(rules, log, n, |log|, k);
    assert log[..|log|] == log;
    TaggedPrefix(rules, log, n);
    KeepPrefix(Tagged(rules, log), n, {TurnIDAt(rules, log, n, k)});
  }

  /** In every state the cache can be in, whatever interleaving led there: a turn of a current session
      that does not need materializing holds exactly what the builder makes of the events the turn has
      now and the pairs the session has now. */
  lemma FreshTurnIsExact<B(!new)>(build: Build<B>, s: Server<B>, k: nat)
    requires ServerInv(build, s) && LooksOnlyAtItsRows(build, s.version)
    requires Current(s.session) && k in s.session.tables.turns && !Stale(s, k)
    ensures var rows := Tagged(RulesOf(s.session), s.session.log);
            && 1 <= k <= |TurnIDs(rows)|
            && s.stored[k].content == build(s.version, EventsOfTurn(rows, k), PairsOf(CandidatesOf(RulesOf(s.session), rows)))
  {
    hide Inv, Fingerprint, TurnIDs, Keep, Tagged, CandidatesOf, PairsOf, EventTurnsOf;
    var log, stored := s.session.log, s.stored[k];
    CurrentTables(s.session);
    var candidates, events :| BuiltFrom(RulesOf(s.session), build, log, k, stored, candidates, events);
    FreshEvents(RulesOf(s.session), log, k, events);
    FreshPairs(RulesOf(s.session), log, k, candidates);
    TurnEventsRise(RulesOf(s.session), log, k);
  }

  lemma TurnEventsRise(rules: Rules, log: seq<EventRow>, k: nat)
    requires Ascending(log) && 1 <= k <= |TurnIDs(Tagged(rules, log))|
    ensures Rising(EventsOfTurn(Tagged(rules, log), k))
  {
    hide TurnIDs, Tagged;
    TaggedRising(rules, log);
    KeepRising(Tagged(rules, log), {TurnIDs(Tagged(rules, log))[k - 1]});
  }

  lemma CurrentTables(s: Session)
    requires Inv(s) && Current(s)
    ensures Ascending(s.log) && s.tables == IndexOf(RulesOf(s), s.log)
  {
  }

  lemma FreshEvents(rules: Rules, log: seq<EventRow>, k: nat, events: seq<TurnEvent>)
    requires Ascending(log) && k in IndexOf(rules, log).turns && EventsReadBefore(rules, log, k, events) && events != []
    requires events[|events| - 1].row.id >= IndexOf(rules, log).turns[k].lastEventID
    ensures events == EventsOfTurn(Tagged(rules, log), k)
  {
    hide TurnIDs, Tagged, EventTurnsOf, CandidatesOf;
    var n: nat :| n <= |log| && HadTurn(rules, log, n, k) && events == EventsAt(rules, log, n, k);
    EventsAtIsPrefix(rules, log, n, k);
    assert log[..|log|] == log;
    var all := EventsOfTurn(Tagged(rules, log), k);
    TaggedRising(rules, log);
    KeepRising(Tagged(rules, log), {TurnIDs(Tagged(rules, log))[k - 1]});
    SameNewestSameEvents(all, |events|);
  }

  lemma FreshPairs(rules: Rules, log: seq<EventRow>, k: nat, candidates: seq<Candidate>)
    requires Ascending(log) && 1 <= k <= |TurnIDs(Tagged(rules, log))| && ReadBefore(rules, log, candidates)
    requires Fingerprint(candidates, k) == Fingerprint(CandidatesOf(rules, Tagged(rules, log)), k)
    ensures SamePairsOn(EventsOfTurn(Tagged(rules, log), k), PairsOf(candidates), PairsOf(CandidatesOf(rules, Tagged(rules, log))))
  {
    hide Fingerprint, TurnIDs, CandidatesOf, PairsOf, Tagged;
    var n: nat :| n <= |log| && candidates == CandidatesAt(rules, log, n);
    TaggedPrefix(rules, log, n);
    CandidatesOfPrefix(rules, Tagged(rules, log), n);
    TaggedRising(rules, log);
    SameFingerprintSamePairs(rules, Tagged(rules, log), candidates, k);
  }

  lemma InitIsInv<B>(build: Build<B>, s: Server<B>)
    requires ServerInit(s)
    ensures ServerInv(build, s)
  {
  }

  lemma {:induction false} RunKeepsServerInv<B>(build: Build<B>, s: Server<B>, actions: seq<Action>)
    requires ServerInit(s) && ServerRunSafe(build, s, actions)
    ensures ServerInv(build, RunServer(build, s, actions))
  {
    hide ServerInv, ServerInit, Act, ActionSafe;
    if actions == [] {
      InitIsInv(build, s);
    } else {
      var n := |actions| - 1;
      forall k | 0 <= k < n ensures ActionSafe(RunServer(build, s, actions[..n][..k]), actions[..n][k]) {
        assert actions[..n][..k] == actions[..k];
      }
      RunKeepsServerInv(build, s, actions[..n]);
      ActionKeepsInv(build, RunServer(build, s, actions[..n]), actions[n]);
    }
  }

  /** The same over whole runs: every interleaving of ingest, builds, crashes, guarded restarts and any
      number of materializers, late writers included. */
  lemma FreshTurnIsExactInEveryRun<B(!new)>(build: Build<B>, s0: Server<B>, actions: seq<Action>, k: nat)
    requires ServerInit(s0) && ServerRunSafe(build, s0, actions)
    requires var s := RunServer(build, s0, actions);
             LooksOnlyAtItsRows(build, s.version) && Current(s.session) && k in s.session.tables.turns && !Stale(s, k)
    ensures var s := RunServer(build, s0, actions);
            var rows := Tagged(RulesOf(s.session), s.session.log);
            && 1 <= k <= |TurnIDs(rows)|
            && s.stored[k].content == build(s.version, EventsOfTurn(rows, k), PairsOf(CandidatesOf(RulesOf(s.session), rows)))
  {
    hide ServerInv, ServerInit, Act, Stale, TurnIDs, Tagged;
    RunKeepsServerInv(build, s0, actions);
    FreshTurnIsExact(build, RunServer(build, s0, actions), k);
  }

  // ---------------------------------------------------------------- what one event makes stale

  lemma {:induction false} TextFollowsTwins(ids: seq<nat>, p: Pairs, q: Pairs)
    requires forall id :: id in ids ==> TwinOf(p, id) == TwinOf(q, id)
    ensures FingerprintText(ids, p) == FingerprintText(ids, q)
  {
    if ids != [] {
      assert ids == ids[..|ids| - 1] + [ids[|ids| - 1]];
      TextFollowsTwins(ids[..|ids| - 1], p, q);
    }
  }

  /** A copy filed in one turn changes the fingerprint of another turn exactly when it pairs into it. */
  lemma NewCopyMovesFingerprint(cands: seq<Candidate>, c: Candidate, k: nat)
    requires RisingCandidates(cands + [c]) && c.turnSeq != k
    ensures var p := PairsOf(cands + [c]);
            Fingerprint(cands + [c], k) != Fingerprint(cands, k) <==>
            c.eventID in p && p[c.eventID] in TurnCandidates(cands, k)
  {
    hide PairsOf, TurnCandidates, FingerprintText, Copies;
    var ids, p, p' := TurnCandidates(cands, k), PairsOf(cands), PairsOf(cands + [c]);
    AppendKeepsPairs(cands, c);
    TurnCandidatesSnoc(cands, c, k);
    NewCopyUnpaired(cands, c);
    if c.eventID in p' && p'[c.eventID] in ids {
      PairsAreSymmetric(cands + [c], c.eventID);
      assert TwinOf(p', p'[c.eventID]) == c.eventID;
      if FingerprintText(ids, p') == FingerprintText(ids, p) {
        FingerprintInjective(ids, p', ids, p);
      }
    } else {
      forall id | id in ids ensures TwinOf(p', id) == TwinOf(p, id) {
        NotTheNewCopy(cands, c, k, id);
      }
      TextFollowsTwins(ids, p', p);
    }
  }

  lemma TurnCandidatesSnoc(cands: seq<Candidate>, c: Candidate, k: nat)
    requires c.turnSeq != k
    ensures TurnCandidates(cands + [c], k) == TurnCandidates(cands, k)
  {
    assert (cands + [c])[..|cands|] == cands;
  }

  /** Before it arrives a copy is in no pair, and neither is the one it will pair with. */
  lemma NewCopyUnpaired(cands: seq<Candidate>, c: Candidate)
    requires RisingCandidates(cands + [c])
    ensures c.eventID !in PairsOf(cands)
    ensures var p := PairsOf(cands + [c]);
            c.eventID in p ==> p[c.eventID] !in PairsOf(cands)
  {
    hide PairsOf, Copies;
    var all := cands + [c];
    assert all[..|cands|] == cands;
    AppendKeepsPairs(cands, c);
    forall d | d in cands ensures d.eventID != c.eventID {
      var i :| 0 <= i < |cands| && cands[i] == d;
      assert all[i] == d && all[|cands|] == c;
    }
    if c.eventID in PairsOf(cands) {
      PairedIsCandidate(cands, c.eventID);
    }
    if c.eventID in PairsOf(all) {
      var y := PairsOf(all)[c.eventID];
      PairsAreSymmetric(all, c.eventID);
      if y in PairsOf(cands) {
        PairsAreSymmetric(cands, y);
      }
    }
  }

  lemma NotTheNewCopy(cands: seq<Candidate>, c: Candidate, k: nat, id: nat)
    requires RisingCandidates(cands + [c]) && id in TurnCandidates(cands, k)
    ensures id != c.eventID
  {
    TurnCandidatesMembers(cands, k, id);
    var d :| d in cands && d.turnSeq == k && d.eventID == id;
    var i :| 0 <= i < |cands| && cands[i] == d;
    assert (cands + [c])[i] == d && (cands + [c])[|cands|] == c;
  }
}
