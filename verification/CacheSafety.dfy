/** What every step of the cache keeps, and what it buys: a turn that does not need materializing holds
    exactly what the builder would make of it now. */
module CacheSafety {
  import opened Options
  import opened Events
  import opened TurnRule
  import opened IndexRules
  import opened TurnIndex
  import opened IndexFacts
  import opened IndexProtocol
  import opened Dedup
  import opened Cache

  // ---------------------------------------------------------------- growing logs

  lemma TurnKept(rules: Rules, log: seq<EventRow>, n: nat, m: nat, k: nat)
    requires n <= m <= |log| && HadTurn(rules, log, n, k)
    ensures HadTurn(rules, log, m, k) && TurnIDAt(rules, log, m, k) == TurnIDAt(rules, log, n, k)
  {
    assert log[..m][..n] == log[..n];
    TaggedPrefix(rules, log[..m], n);
    TurnIDsPrefix(Tagged(rules, log[..m]), n);
  }

  lemma ReadBeforeGrows(rules: Rules, log: seq<EventRow>, e: EventRow, candidates: seq<Candidate>)
    requires ReadBefore(rules, log, candidates)
    ensures ReadBefore(rules, log + [e], candidates)
  {
    var n: nat :| n <= |log| && candidates == CandidatesAt(rules, log, n);
    assert (log + [e])[..n] == log[..n];
    assert candidates == CandidatesAt(rules, log + [e], n);
  }

  lemma EventsReadBeforeGrows(rules: Rules, log: seq<EventRow>, e: EventRow, k: nat, events: seq<TurnEvent>)
    requires EventsReadBefore(rules, log, k, events)
    ensures EventsReadBefore(rules, log + [e], k, events)
  {
    var n: nat :| n <= |log| && HadTurn(rules, log, n, k) && events == EventsAt(rules, log, n, k);
    assert (log + [e])[..n] == log[..n];
    assert HadTurn(rules, log + [e], n, k) && events == EventsAt(rules, log + [e], n, k);
  }

  lemma KnownTurnGrows(rules: Rules, log: seq<EventRow>, e: EventRow, k: nat)
    requires HadTurn(rules, log, |log|, k)
    ensures HadTurn(rules, log + [e], |log + [e]|, k)
    ensures TurnIDAt(rules, log + [e], |log + [e]|, k) == TurnIDAt(rules, log, |log|, k)
  {
    assert (log + [e])[..|log|] == log[..|log|];
    TurnKept(rules, log + [e], |log|, |log + [e]|, k);
  }

  lemma GoodWorkGrows(rules: Rules, log: seq<EventRow>, e: EventRow, work: Work)
    requires GoodWork(rules, log, work)
    ensures GoodWork(rules, log + [e], work)
  {
    match work {
      case Started =>
      case HasTurn(k, _) => KnownTurnGrows(rules, log, e, k);
      case HasPairing(k, _, candidates) =>
        KnownTurnGrows(rules, log, e, k);
        ReadBeforeGrows(rules, log, e, candidates);
      case HasEvents(k, candidates, events) =>
        ReadBeforeGrows(rules, log, e, candidates);
        EventsReadBeforeGrows(rules, log, e, k, events);
    }
  }

  lemma GoodStoredGrows<B>(rules: Rules, build: Build<B>, log: seq<EventRow>, e: EventRow, k: nat, stored: Stored<B>)
    requires GoodStored(rules, build, log, k, stored)
    ensures GoodStored(rules, build, log + [e], k, stored)
  {
    var candidates, events :| BuiltFrom(rules, build, log, k, stored, candidates, events);
    ReadBeforeGrows(rules, log, e, candidates);
    EventsReadBeforeGrows(rules, log, e, k, events);
    assert BuiltFrom(rules, build, log + [e], k, stored, candidates, events);
  }

  lemma LogOnlyGrows(s: Session, step: Step)
    ensures Next(s, step).log == s.log || (step.Ingest? && Next(s, step).log == s.log + [step.event])
  {
  }

  // ---------------------------------------------------------------- the tables index a prefix

  lemma WholeIsPrefix(s: Session)
    requires s.tables == IndexOf(RulesOf(s), s.log)
    ensures TablesArePrefix(s)
  {
    assert s.log[..|s.log|] == s.log;
  }

  lemma IngestKeepsPrefix(s: Session, e: EventRow)
    requires Inv(s) && TablesArePrefix(s) && NewestID(s.log) < e.id
    ensures TablesArePrefix(IndexEventInTx(s, e))
  {
    hide IndexOf, StateOf, UpTo, After, WriteEventTurn;
    var s' := IndexEventInTx(s, e);
    IngestKeepsInv(s, e);
    if Current(s') {
      WholeIsPrefix(s');
    } else {
      var n: nat :| n <= |s.log| && s.tables == IndexOf(RulesOf(s), s.log[..n]);
      assert s'.log[..n] == s.log[..n];
    }
  }

  lemma ChunkKeepsPrefix(s: Session, st: TurnState, through: nat, batch: seq<EventRow>)
    requires Inv(s) && TablesArePrefix(s) && s.builder == Building(st, through, batch) && batch != []
    ensures TablesArePrefix(WriteChunk(s, st, through, batch))
  {
    hide IndexOf, StateOf, UpTo, After, WriteAll;
    BuildTransaction(s, st, through, batch);
    BatchIsNextPrefix(s.log, through, batch);
    var more := UpTo(s.log, LastID(batch, through));
    assert more == s.log[..|more|];
  }

  lemma FinishKeepsPrefix(s: Session, st: TurnState, through: nat)
    requires Inv(s) && TablesArePrefix(s) && s.builder == Finishing(st, through)
    ensures TablesArePrefix(FinishBuild(s, st, through))
  {
    hide IndexOf, StateOf, UpTo, After, WriteAll;
    FinishKeepsInv(s, st, through);
    var s' := FinishBuild(s, st, through);
    if Current(s') {
      WholeIsPrefix(s');
    } else {
      assert s'.tables == s.tables && s'.log == s.log;
    }
  }

  lemma EmptyIsPrefix(s: Session)
    requires s.tables == EmptyTables
    ensures TablesArePrefix(s)
  {
    assert s.log[..0] == [];
    assert s.tables == IndexOf(RulesOf(s), s.log[..0]);
  }

  /** Within one process, once the tables index a prefix of the log they always do: a rebuild goes back
      to a shorter prefix, never to anything else. */
  lemma StepKeepsPrefix(s: Session, step: Step)
    requires Inv(s) && TablesArePrefix(s) && !step.Restart?
    ensures TablesArePrefix(Next(s, step))
  {
    match step {
      case Ingest(e) =>
        if NewestID(s.log) < e.id {
          IngestKeepsPrefix(s, e);
        }
      case BuilderDelete =>
        if s.builder.NotCurrent? {
          EmptyIsPrefix(Next(s, step));
        }
      case BuilderChunk =>
        if s.builder.Building? && s.builder.batch != [] {
          ChunkKeepsPrefix(s, s.builder.state, s.builder.through, s.builder.batch);
        }
      case BuilderFinish =>
        if s.builder.Finishing? {
          FinishKeepsPrefix(s, s.builder.state, s.builder.through);
        }
      case BuilderCheck =>
      case BuilderRead =>
      case BuilderError =>
    }
  }

  // ---------------------------------------------------------------- each action keeps the invariant

  ghost predicate WorkInv(rules: Rules, log: seq<EventRow>, working: map<nat, Work>) {
    forall w :: w in working ==> GoodWork(rules, log, working[w])
  }

  lemma WorkInvGrows(rules: Rules, log: seq<EventRow>, e: EventRow, working: map<nat, Work>)
    requires WorkInv(rules, log, working)
    ensures WorkInv(rules, log + [e], working)
  {
    forall w | w in working ensures GoodWork(rules, log + [e], working[w]) {
      GoodWorkGrows(rules, log, e, working[w]);
    }
  }

  /** A step that empties the index, and the stored turns with it. */
  predicate Deletes(s: Session, step: Step) {
    step.BuilderDelete? && s.builder.NotCurrent?
  }

  /** No other step changes the rules that what is stored was read under, except to forget them; or the log
      was empty, and then nothing is stored. */
  lemma StepKeepsStoredRules(s: Session, step: Step)
    requires !step.Restart? && !Deletes(s, step)
    ensures var s' := Next(s, step);
            && s'.rules == s.rules
            && (StoredRules(s') == StoredRules(s) || StoredRules(s').None? || s.log == [])
            && (StoredRules(s').None? && StoredRules(s).Some? ==> StoredRules(s).value == RulesOf(s))
  {
    hide WriteEventTurn, WriteAll, After, NewestID;
  }

  /** Within one process an index row, once there, is this process's. */
  lemma StepKeepsRowCurrent(s: Session, step: Step)
    requires !step.Restart? && (s.row.Some? ==> Current(s))
    ensures Next(s, step).row.Some? ==> Current(Next(s, step))
  {
    hide WriteEventTurn, WriteAll, After, NewestID;
  }

  lemma NothingStoredBeforeEvents<B>(rules: Rules, build: Build<B>, k: nat, stored: Stored<B>)
    ensures !GoodStored(rules, build, [], k, stored)
  {
    forall candidates, events ensures !BuiltFrom(rules, build, [], k, stored, candidates, events) {
    }
  }

  lemma SomeRules<B>(build: Build<B>, s: Session, k: nat, stored: Stored<B>) returns (rules: Rules)
    requires StoredUnder(build, s, k, stored)
    ensures GoodStored(rules, build, s.log, k, stored)
    ensures StoredRules(s).Some? ==> rules == StoredRules(s).value
    ensures StoredRules(s).None? ==> exists v :: rules == s.rules(v)
  {
    hide GoodStored;
    if StoredRules(s).Some? {
      rules := StoredRules(s).value;
    } else {
      var v :| GoodStored(s.rules(v), build, s.log, k, stored);
      rules := s.rules(v);
    }
  }

  /** What is stored stays good through every step that leaves it stored. */
  lemma StepKeepsStored<B>(build: Build<B>, s: Session, step: Step, k: nat, stored: Stored<B>)
    requires StoredUnder(build, s, k, stored) && !step.Restart? && !Deletes(s, step)
    ensures StoredUnder(build, Next(s, step), k, stored)
  {
    hide GoodStored, Next, StoredRules;
    var rules := SomeRules(build, s, k, stored);
    LogOnlyGrows(s, step);
    StepKeepsStoredRules(s, step);
    if s.log == [] {
      NothingStoredBeforeEvents(rules, build, k, stored);
    }
    if Next(s, step).log != s.log {
      GoodStoredGrows(rules, build, s.log, step.event, k, stored);
    }
  }

  lemma RestartKeepsStored<B>(build: Build<B>, s: Session, v: int, k: nat, stored: Stored<B>)
    requires StoredUnder(build, s, k, stored)
    ensures StoredUnder(build, Next(s, Restart(v)), k, stored)
  {
    hide GoodStored;
    var rules := SomeRules(build, s, k, stored);
  }

  /** What this process stores is stored under its own rules. */
  lemma StoredNow<B>(build: Build<B>, s: Session, k: nat, stored: Stored<B>)
    requires s.row.Some? ==> Current(s)
    requires GoodStored(RulesOf(s), build, s.log, k, stored)
    ensures StoredUnder(build, s, k, stored)
  {
    hide GoodStored;
  }

  lemma IndexStepKeepsInv<B>(build: Build<B>, s: Server<B>, step: Step)
    requires ServerInv(build, s) && !step.Restart?
    ensures ServerInv(build, Act(build, s, IndexStep(step)))
  {
    hide Inv, Next, GoodWork, GoodStored, TablesArePrefix, StoredUnder;
    StepKeepsInv(s.session, step);
    LogOnlyGrows(s.session, step);
    SameProcess(s.session, step);
    if s.working != map[] {
      StepKeepsPrefix(s.session, step);
      StepKeepsRowCurrent(s.session, step);
    }
    assert WorkInv(RulesOf(s.session), s.session.log, s.working);
    if Next(s.session, step).log != s.session.log {
      WorkInvGrows(RulesOf(s.session), s.session.log, step.event, s.working);
    }
    if !Deletes(s.session, step) {
      forall k | k in s.stored ensures StoredUnder(build, Next(s.session, step), k, s.stored[k]) {
        StepKeepsStored(build, s.session, step, k, s.stored[k]);
      }
    }
  }

  lemma SameProcess(s: Session, step: Step)
    requires !step.Restart?
    ensures RulesOf(Next(s, step)) == RulesOf(s)
  {
    hide WriteEventTurn, WriteAll, After, NewestID;
  }

  lemma RestartKeepsInv<B>(build: Build<B>, s: Server<B>, indexVersion: int, version: int)
    requires ServerInv(build, s) && RestartSafe(s.session, indexVersion)
    ensures ServerInv(build, Act(build, s, RestartServer(indexVersion, version)))
  {
    hide Inv, GoodStored, TablesArePrefix, StoredUnder, Next;
    StepKeepsInv(s.session, Restart(indexVersion));
    forall k | k in s.stored ensures StoredUnder(build, Next(s.session, Restart(indexVersion)), k, s.stored[k]) {
      RestartKeepsStored(build, s.session, indexVersion, k, s.stored[k]);
    }
  }

  lemma StartKeepsInv<B>(build: Build<B>, s: Server<B>, w: nat)
    requires ServerInv(build, s)
    ensures ServerInv(build, Act(build, s, Start(w)))
  {
    hide GoodStored, IndexOf, StateOf, UpTo, After;
    if Current(s.session) {
      WholeIsPrefix(s.session);
    }
  }

  lemma ReadTurnKeepsInv<B>(build: Build<B>, s: Server<B>, w: nat, k: nat)
    requires ServerInv(build, s)
    ensures ServerInv(build, Act(build, s, ReadTurn(w, k)))
  {
    hide Inv, GoodWork, GoodStored, TablesArePrefix;
    if w in s.working && s.working[w].Started? && k in s.session.tables.turns {
      TurnReadIsKnown(s.session, k);
    }
  }

  lemma TurnReadIsKnown(s: Session, k: nat)
    requires TablesArePrefix(s) && k in s.tables.turns
    ensures GoodWork(RulesOf(s), s.log, HasTurn(k, s.tables.turns[k].turnID))
  {
    var n: nat :| n <= |s.log| && s.tables == IndexOf(RulesOf(s), s.log[..n]);
    hide TurnIDs, Tagged, EventTurnsOf, CandidatesOf;
    TurnIDOfRow(Tagged(RulesOf(s), s.log[..n]), k);
    TurnKept(RulesOf(s), s.log, n, |s.log|, k);
  }

  lemma ReadPairingKeepsInv<B>(build: Build<B>, s: Server<B>, w: nat)
    requires ServerInv(build, s)
    ensures ServerInv(build, Act(build, s, ReadPairing(w)))
  {
    hide Inv, GoodStored, TablesArePrefix, HadTurn, ReadBefore;
    if w in s.working && s.working[w].HasTurn? {
      PairingReadIsKnown(s.session);
    }
  }

  lemma PairingReadIsKnown(s: Session)
    requires TablesArePrefix(s)
    ensures ReadBefore(RulesOf(s), s.log, s.tables.candidates)
  {
    var n: nat :| n <= |s.log| && s.tables == IndexOf(RulesOf(s), s.log[..n]);
    assert s.tables.candidates == CandidatesAt(RulesOf(s), s.log, n);
  }

  lemma EventsReadAreKnown(s: Session, k: nat, id: string)
    requires Ascending(s.log) && TablesArePrefix(s)
    requires HadTurn(RulesOf(s), s.log, |s.log|, k) && id == TurnIDAt(RulesOf(s), s.log, |s.log|, k)
    ensures var events := SelectTurnEvents(s.tables, s.log, k, id);
            events != [] ==> EventsReadBefore(RulesOf(s), s.log, k, events)
  {
    hide TurnIDAt, EventsAt, IndexOf, SelectTurnEvents;
    var n: nat :| n <= |s.log| && s.tables == IndexOf(RulesOf(s), s.log[..n]);
    if HadTurn(RulesOf(s), s.log, n, k) {
      TurnKept(RulesOf(s), s.log, n, |s.log|, k);
    }
    SelectIsEventsOfTurn(s, n, k, id);
  }

  lemma ReadEventsKeepsInv<B>(build: Build<B>, s: Server<B>, w: nat)
    requires ServerInv(build, s)
    ensures ServerInv(build, Act(build, s, ReadEvents(w)))
  {
    hide GoodStored, TablesArePrefix, HadTurn, ReadBefore, EventsReadBefore, SelectTurnEvents, IndexOf, UpTo, After, StateOf;
    if w in s.working && s.working[w].HasPairing? {
      EventsReadAreKnown(s.session, s.working[w].turnSeq, s.working[w].turnID);
    }
  }

  lemma ReplaceKeepsInv<B>(build: Build<B>, s: Server<B>, w: nat)
    requires ServerInv(build, s)
    ensures ServerInv(build, Act(build, s, Replace(w)))
  {
    hide Inv, TablesArePrefix, GoodStored, Materialized, StoredUnder;
    if w in s.working && s.working[w].HasEvents? && s.working[w].events != [] {
      var work := s.working[w];
      MaterializedIsGood(RulesOf(s.session), build, s.session.log, s.version, work);
      StoredNow(build, s.session, work.turnSeq, Materialized(build, s.version, work));
    }
  }

  lemma MaterializedIsGood<B>(rules: Rules, build: Build<B>, log: seq<EventRow>, version: int, work: Work)
    requires work.HasEvents? && work.events != [] && GoodWork(rules, log, work)
    ensures GoodStored(rules, build, log, work.turnSeq, Materialized(build, version, work))
  {
    assert BuiltFrom(rules, build, log, work.turnSeq, Materialized(build, version, work), work.candidates, work.events);
  }

  lemma ActionKeepsInv<B>(build: Build<B>, s: Server<B>, action: Action)
    requires ServerInv(build, s) && ActionSafe(s, action)
    ensures ServerInv(build, Act(build, s, action))
  {
    hide Inv, TablesArePrefix, GoodStored, GoodWork;
    match action {
      case IndexStep(step) =>
        if !step.Restart? {
          IndexStepKeepsInv(build, s, step);
        }
      case Start(w) => StartKeepsInv(build, s, w);
      case ReadTurn(w, k) => ReadTurnKeepsInv(build, s, w, k);
      case ReadPairing(w) => ReadPairingKeepsInv(build, s, w);
      case ReadEvents(w) => ReadEventsKeepsInv(build, s, w);
      case Replace(w) => ReplaceKeepsInv(build, s, w);
      case Fail(w) =>
      case RestartServer(indexVersion, version) => RestartKeepsInv(build, s, indexVersion, version);
    }
  }
}
