/** A materialization that runs to its end: what it stores, and what every action leaves stored. */
module Materializing {
  import opened Options
  import opened Events
  import opened TurnRule
  import opened IndexRules
  import opened TurnIndex
  import opened IndexFacts
  import opened IndexProtocol
  import opened Dedup
  import opened Cache
  import opened CacheSafety
  import opened Freshness

  /** The actions of one materialization of a turn with nothing in between. */
  function Materialization(w: nat, k: nat): seq<Action> {
    [Start(w), ReadTurn(w, k), ReadPairing(w), ReadEvents(w), Replace(w)]
  }

  lemma RunOneMore<B>(build: Build<B>, s: Server<B>, actions: seq<Action>, action: Action)
    ensures RunServer(build, s, actions + [action]) == Act(build, RunServer(build, s, actions), action)
  {
    assert (actions + [action])[..|actions|] == actions;
  }

  /** On a current session reading a turn through the index gives the turn's events, in order and named. */
  lemma TurnReadNow(s: Session, k: nat)
    requires Inv(s) && Current(s) && k in s.tables.turns
    ensures var rows := Tagged(RulesOf(s), s.log);
            && 1 <= k <= |TurnIDs(rows)| && Rising(EventsOfTurn(rows, k))
            && s.tables.turns[k].turnID == TurnIDs(rows)[k - 1] != ""
            && (forall b :: b in EventsOfTurn(rows, k) ==> b.turnID == TurnIDs(rows)[k - 1])
            && SelectTurnEvents(s.tables, s.log, k, s.tables.turns[k].turnID) == EventsOfTurn(rows, k)
  {
    hide TurnIDs, Tagged, Keep, SelectTurnEvents, EventTurnsOf, CandidatesOf;
    var rules, log := RulesOf(s), s.log;
    CurrentTables(s);
    TurnEventsRise(rules, log, k);
    assert log[..|log|] == log;
    TurnIDOfRow(Tagged(rules, log), k);
    SelectIsEventsOfTurn(s, |log|, k, s.tables.turns[k].turnID);
    KeepMembers(Tagged(rules, log), {TurnIDs(Tagged(rules, log))[k - 1]});
    TaggedNamed(rules, log);
    assert EventsOfTurn(Tagged(rules, log), k)[0] in EventsOfTurn(Tagged(rules, log), k);
  }

  lemma TaggedNamed(rules: Rules, log: seq<EventRow>)
    ensures forall b :: b in Tagged(rules, log) ==> b.turnID != ""
  {
    forall b | b in Tagged(rules, log) ensures b.turnID != "" {
      var i :| 0 <= i < |log| && Tagged(rules, log)[i] == b;
      TaggedAt(rules, log, i);
    }
  }

  /** What a materializer that reads now has read. */
  function ReadNow(s: Session, k: nat): Work
    requires 1 <= k <= |TurnIDs(Tagged(RulesOf(s), s.log))|
  {
    HasEvents(k, s.tables.candidates, EventsOfTurn(Tagged(RulesOf(s), s.log), k))
  }

  /** The four steps up to the events. */
  lemma ReadsCompose<B>(build: Build<B>, s: Server<B>, w: nat, k: nat)
    requires Inv(s.session) && Current(s.session) && k in s.session.tables.turns
    ensures 1 <= k <= |TurnIDs(Tagged(RulesOf(s.session), s.session.log))|
    ensures RunServer(build, s, [Start(w), ReadTurn(w, k), ReadPairing(w), ReadEvents(w)]) ==
            s.(working := s.working[w := ReadNow(s.session, k)])
  {
    hide Inv, Current, TurnIDs, Tagged, EventsOfTurn, SelectTurnEvents;
    TurnReadNow(s.session, k);
    var a, b, c, d := Start(w), ReadTurn(w, k), ReadPairing(w), ReadEvents(w);
    assert [] + [a] == [a] && [a] + [b] == [a, b] && [a, b] + [c] == [a, b, c] && [a, b, c] + [d] == [a, b, c, d];
    RunOneMore(build, s, [], a);
    RunOneMore(build, s, [a], b);
    RunOneMore(build, s, [a, b], c);
    RunOneMore(build, s, [a, b, c], d);
    ReadSteps(build, s, w, k);
  }

  lemma ReadSteps<B>(build: Build<B>, s: Server<B>, w: nat, k: nat)
    requires Current(s.session) && k in s.session.tables.turns
    requires 1 <= k <= |TurnIDs(Tagged(RulesOf(s.session), s.session.log))|
    requires SelectTurnEvents(s.session.tables, s.session.log, k, s.session.tables.turns[k].turnID) ==
             EventsOfTurn(Tagged(RulesOf(s.session), s.session.log), k)
    ensures Act(build, Act(build, Act(build, Act(build, s, Start(w)), ReadTurn(w, k)), ReadPairing(w)), ReadEvents(w)) ==
            s.(working := s.working[w := ReadNow(s.session, k)])
  {
    hide Current, TurnIDs, Tagged, EventsOfTurn, SelectTurnEvents;
    var id, candidates := s.session.tables.turns[k].turnID, s.session.tables.candidates;
    var s1 := s.(working := s.working[w := Started]);
    var s2 := s.(working := s.working[w := HasTurn(k, id)]);
    var s3 := s.(working := s.working[w := HasPairing(k, id, candidates)]);
    assert Act(build, s, Start(w)) == s1;
    assert s1.working[w := HasTurn(k, id)] == s2.working;
    assert Act(build, s1, ReadTurn(w, k)) == s2;
    assert s2.working[w := HasPairing(k, id, candidates)] == s3.working;
    assert Act(build, s2, ReadPairing(w)) == s3;
    assert s3.working[w := ReadNow(s.session, k)] == s.working[w := ReadNow(s.session, k)];
  }

  /** In every cache state of a current session: a materialization that runs to its end stores the turn, with
      what the builder makes of its present events and pairs; the turn is then fresh, and nothing else is
      touched. */
  lemma MaterializationStores<B>(build: Build<B>, s: Server<B>, w: nat, k: nat)
    requires ServerInv(build, s) && Current(s.session) && k in s.session.tables.turns
    ensures 1 <= k <= |TurnIDs(Tagged(RulesOf(s.session), s.session.log))|
    ensures var s' := RunServer(build, s, Materialization(w, k));
            && k in s'.stored && s' == s.(stored := s.stored[k := s'.stored[k]], working := s.working - {w})
            && !Stale(s', k)
    ensures var stored := RunServer(build, s, Materialization(w, k)).stored[k];
            var rows := Tagged(RulesOf(s.session), s.session.log);
            && stored.version == s.version
            && stored.content == build(s.version, EventsOfTurn(rows, k), PairsOf(CandidatesOf(RulesOf(s.session), rows)))
            && stored == Materialized(build, s.version, ReadNow(s.session, k))
  {
    hide Inv, Current, TurnIDs, Tagged, EventsOfTurn, CandidatesOf, PairsOf, Fingerprint, RunServer, Act, Materialized;
    hide GoodWork, TablesArePrefix, StoredUnder, Stale;
    var readSteps := [Start(w), ReadTurn(w, k), ReadPairing(w), ReadEvents(w)];
    assert Materialization(w, k) == readSteps + [Replace(w)];
    RunOneMore(build, s, readSteps, Replace(w));
    ReadsCompose(build, s, w, k);
    ReplaceStores(build, s, w, k);
    ReadReachesNewest(s.session, k);
    MaterializedIsNow(build, s, k, s.working - {w});
    assert s.(stored := s.stored[k := Materialized(build, s.version, ReadNow(s.session, k))]).stored[k] ==
           Materialized(build, s.version, ReadNow(s.session, k));
  }

  /** The last step, from what was read. */
  lemma ReplaceStores<B>(build: Build<B>, s: Server<B>, w: nat, k: nat)
    requires k in s.session.tables.turns && 1 <= k <= |TurnIDs(Tagged(RulesOf(s.session), s.session.log))|
    ensures Act(build, s.(working := s.working[w := ReadNow(s.session, k)]), Replace(w)) ==
            s.(stored := s.stored[k := Materialized(build, s.version, ReadNow(s.session, k))], working := s.working - {w})
  {
    hide TurnIDs, Tagged, EventsOfTurn, Materialized;
    assert s.working[w := ReadNow(s.session, k)] - {w} == s.working - {w};
  }

  lemma MaterializedIsNow<B>(build: Build<B>, s: Server<B>, k: nat, working: map<nat, Work>)
    requires Inv(s.session) && Current(s.session) && k in s.session.tables.turns
    requires 1 <= k <= |TurnIDs(Tagged(RulesOf(s.session), s.session.log))|
    ensures var rows, stored := Tagged(RulesOf(s.session), s.session.log), Materialized(build, s.version, ReadNow(s.session, k));
            && stored.version == s.version
            && stored.content == build(s.version, EventsOfTurn(rows, k), PairsOf(CandidatesOf(RulesOf(s.session), rows)))
    ensures !Stale(s.(stored := s.stored[k := Materialized(build, s.version, ReadNow(s.session, k))], working := working), k)
  {
    hide Inv, Current, TurnIDs, Tagged, EventsOfTurn, CandidatesOf, PairsOf, Fingerprint;
    ReadReachesNewest(s.session, k);
    CandidatesNow(s.session);
  }

  lemma CandidatesNow(s: Session)
    requires Inv(s) && Current(s)
    ensures s.tables.candidates == CandidatesOf(RulesOf(s), Tagged(RulesOf(s), s.log))
  {
    CurrentTables(s);
  }

  lemma ReadReachesNewest(s: Session, k: nat)
    requires Inv(s) && Current(s) && k in s.tables.turns && 1 <= k <= |TurnIDs(Tagged(RulesOf(s), s.log))|
    ensures var events := EventsOfTurn(Tagged(RulesOf(s), s.log), k);
            s.tables.turns[k].lastEventID == events[|events| - 1].row.id
  {
    hide TurnIDs, Tagged, Keep, EventTurnsOf, CandidatesOf;
    CurrentTables(s);
  }

  // ---------------------------------------------------------------- what each action leaves stored

  /** Only two actions touch what is stored: the delete that starts a build drops everything, and a finishing
      materializer replaces its one turn. */
  lemma OnlyReplaceAndDeleteStore<B>(build: Build<B>, s: Server<B>, action: Action)
    ensures var s' := Act(build, s, action);
            if action.IndexStep? && Deletes(s.session, action.step) then s'.stored == map[]
            else if action.Replace? then
              s'.stored == s.stored || exists k :: k in s'.stored && s'.stored == s.stored[k := s'.stored[k]]
            else s'.stored == s.stored
  {
    hide Next;
    if action.Replace? && Act(build, s, action).stored != s.stored {
      var k := s.working[action.worker].turnSeq;
      assert k in Act(build, s, action).stored;
    }
  }

  /** A materialization given up, by an error or a restart, does nothing more: none of its steps has any effect
      until it starts again. */
  lemma AbandonedMaterializationStops<B>(build: Build<B>, s: Server<B>, w: nat, end: Action, later: Action)
    requires end == Fail(w) || end.RestartServer?
    requires later in {ReadPairing(w), ReadEvents(w), Replace(w)} || (later.ReadTurn? && later.worker == w)
    ensures Act(build, Act(build, s, end), later) == Act(build, s, end)
    ensures Act(build, s, end).stored == s.stored
  {
    hide Next;
  }

  /** A restart under the same versions leaves every turn as fresh or as stale as it was. */
  lemma RestartKeepsFreshness<B>(build: Build<B>, s: Server<B>, k: nat)
    requires k in s.session.tables.turns
    ensures var s' := Act(build, s, RestartServer(s.session.running, s.version));
            && s'.stored == s.stored && s'.working == map[] && s'.session.tables == s.session.tables
            && (Stale(s', k) <==> Stale(s, k))
  {
    hide Fingerprint;
  }
}
