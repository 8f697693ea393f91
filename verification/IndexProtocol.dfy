/** The turn index of one session as a protocol: ingest transactions, a background build made of several
    transactions, crashes between any two of them, and restarts under other rules versions. */
module IndexProtocol {
  import opened Options
  import opened Events
  import opened TurnRule
  import opened IndexRules
  import opened TurnIndex

  /** turnIndexChunk. */
  const CHUNK := 2000

  /** turn_index_sessions. */
  datatype IndexRow = IndexRow(version: int, through: nat, state: TurnState)

  /** BuildTurnIndex between its transactions; what it holds is lost in a crash. `Building` carries
      the batch last read through the reader pool, [] when none is waiting to be written. */
  datatype Builder =
    | Idle
    | NotCurrent
    | Building(state: TurnState, through: nat, batch: seq<EventRow>)
    | Finishing(state: TurnState, through: nat)

  /** `rules` are the rules of every version the session ever meets; `running` is the version at work. */
  datatype Session = Session(log: seq<EventRow>, running: int, row: Option<IndexRow>, tables: Tables, builder: Builder,
                             rules: int -> Rules)

  function RulesOf(s: Session): Rules {
    s.rules(s.running)
  }

  datatype Step =
    | Ingest(event: EventRow)
    | BuilderCheck
    | BuilderDelete
    | BuilderRead
    | BuilderChunk
    | BuilderFinish
    | BuilderError
    | Restart(version: int)

  // ---------------------------------------------------------------- the steps

  /** The events of the log after an id. */
  function After(log: seq<EventRow>, through: nat): seq<EventRow> {
    if log == [] || log[|log| - 1].id <= through then [] else After(log[..|log| - 1], through) + [log[|log| - 1]]
  }

  function FirstOf(events: seq<EventRow>, limit: nat): seq<EventRow> {
    if |events| <= limit then events else events[..limit]
  }

  function LastID(batch: seq<EventRow>, otherwise: nat): nat {
    if batch == [] then otherwise else batch[|batch| - 1].id
  }

  /** indexEventInTx, in the transaction that inserts the event. */
  ghost function IndexEventInTx(s: Session, e: EventRow): Session
  {
    match s.row
    case Some(r) =>
      if r.version != s.running then s.(log := s.log + [e]) else IndexCurrent(s, e, r)
    case None =>
      if s.log != [] then s.(log := s.log + [e])
      else IndexCurrent(s, e, IndexRow(s.running, 0, FreshState))
  }

  /** The part of indexEventInTx that writes; a key violation rolls back the event too. */
  ghost function IndexCurrent(s: Session, e: EventRow, r: IndexRow): Session {
    match WriteEventTurn(RulesOf(s), s.tables, r.state, e, true)
    case Aborted => s
    case Written(t, st) => s.(log := s.log + [e], tables := t, row := Some(IndexRow(r.version, e.id, st)))
  }

  predicate Current(s: Session) {
    s.row.Some? && s.row.value.version == s.running
  }

  /** The next batch, read outside any write transaction; a short one ends the chunked part. */
  function ReadBatch(s: Session, st: TurnState, through: nat): Session {
    var batch := FirstOf(After(s.log, through), CHUNK);
    s.(builder := if |batch| < CHUNK then Finishing(st, through) else Building(st, through, batch))
  }

  /** One chunk's write transaction. */
  ghost function WriteChunk(s: Session, st: TurnState, through: nat, batch: seq<EventRow>): Session {
    match WriteAll(RulesOf(s), s.tables, st, batch)
    case Aborted => s.(builder := Idle)
    case Written(t, st') => s.(tables := t, builder := Building(st', LastID(batch, through), []))
  }

  /** The last transaction: index whatever is left, and mark the session current. */
  ghost function FinishBuild(s: Session, st: TurnState, through: nat): Session {
    var rest := After(s.log, through);
    match WriteAll(RulesOf(s), s.tables, st, rest)
    case Aborted => s.(builder := Idle)
    case Written(t, st') =>
      if s.row.Some? then s.(builder := Idle)
      else s.(tables := t, row := Some(IndexRow(s.running, LastID(rest, through), st')), builder := Idle)
  }

  ghost function Next(s: Session, step: Step): Session {
    match step
    case Ingest(e) =>
      if e.id <= NewestID(s.log) then s else IndexEventInTx(s, e)
    case BuilderCheck =>
      if s.builder.Idle? && !Current(s) then s.(builder := NotCurrent) else s
    case BuilderDelete =>
      if s.builder.NotCurrent? then s.(row := None, tables := EmptyTables, builder := Building(FreshState, 0, [])) else s
    case BuilderRead =>
      if s.builder.Building? && s.builder.batch == [] then ReadBatch(s, s.builder.state, s.builder.through) else s
    case BuilderChunk =>
      if s.builder.Building? && s.builder.batch != []
      then WriteChunk(s, s.builder.state, s.builder.through, s.builder.batch) else s
    case BuilderFinish =>
      if s.builder.Finishing? then FinishBuild(s, s.builder.state, s.builder.through) else s
    case BuilderError => s.(builder := Idle)
    case Restart(v) => s.(running := v, builder := Idle)
  }

  ghost function Run(s: Session, steps: seq<Step>): Session {
    if steps == [] then s else Next(Run(s, steps[..|steps| - 1]), steps[|steps| - 1])
  }

  // ---------------------------------------------------------------- the invariant

  /** The tables and the row's running state are the fold, over these events, of the rules of the version that
      the row names. */
  ghost predicate Indexed(s: Session, r: IndexRow, log: seq<EventRow>) {
    s.tables == IndexOf(s.rules(r.version), log) && r.state == StateOf(s.rules(r.version), log) && r.through == NewestID(log)
  }

  /** A session with a row carrying the running version is indexed completely and exactly. */
  ghost predicate CurrentIsExact(s: Session) {
    Current(s) ==> Indexed(s, s.row.value, s.log)
  }

  /** The events with ids up to `through`. */
  function UpTo(log: seq<EventRow>, through: nat): seq<EventRow> {
    if log == [] || log[|log| - 1].id <= through then log else UpTo(log[..|log| - 1], through)
  }

  /** What a build in progress knows. Either it is alone, and the tables are the index of what it has
      written; or ingest opened the session's index after the build's delete, and the build, still at
      the first event, can only abort. */
  ghost predicate BuildInProgress(s: Session, st: TurnState, through: nat) {
    if s.row.None? then
      && s.tables == IndexOf(RulesOf(s), UpTo(s.log, through)) && st == StateOf(RulesOf(s), UpTo(s.log, through))
      && through == NewestID(UpTo(s.log, through))
    else
      Current(s) && through == 0 && st == FreshState && s.log != []
  }

  ghost predicate Inv(s: Session) {
    && Ascending(s.log)
    && CurrentIsExact(s)
    && (s.row.Some? ==> Indexed(s, s.row.value, UpTo(s.log, s.row.value.through)))
    && (s.row.None? && s.log == [] ==> s.tables == EmptyTables)
    && (s.builder.Building? ==>
          && BuildInProgress(s, s.builder.state, s.builder.through)
          && s.builder.batch <= After(s.log, s.builder.through))
    && (s.builder.Finishing? ==> BuildInProgress(s, s.builder.state, s.builder.through))
  }

  /** Where a session may start: no index row yet, any events, and whatever a crashed build of an
      older run left in the tables. */
  ghost predicate Init(s: Session) {
    && Ascending(s.log) && s.row.None? && s.builder.Idle?
    && (s.log == [] ==> s.tables == EmptyTables)
  }

  /** The guard of a restart: an index row of the new version covers the whole log. */
  predicate RestartSafe(s: Session, v: int) {
    s.row.Some? && s.row.value.version == v ==> s.row.value.through == NewestID(s.log)
  }

  predicate StepSafe(s: Session, step: Step) {
    step.Restart? ==> RestartSafe(s, step.version)
  }

  ghost predicate RunSafe(s: Session, steps: seq<Step>) {
    forall n :: 0 <= n < |steps| ==> StepSafe(Run(s, steps[..n]), steps[n])
  }

  // ---------------------------------------------------------------- log arithmetic

  lemma {:induction false} UpToAfter(log: seq<EventRow>, through: nat)
    requires Ascending(log)
    ensures UpTo(log, through) + After(log, through) == log
    ensures NewestID(UpTo(log, through)) <= through
    ensures forall e :: e in After(log, through) ==> e.id > through
    ensures through == 0 ==> UpTo(log, through) == []
  {
    if log != [] && log[|log| - 1].id > through {
      assert log == log[..|log| - 1] + [log[|log| - 1]];
      UpToAfter(log[..|log| - 1], through);
    }
  }

  lemma {:induction false} NewestIsLargest(log: seq<EventRow>)
    requires Ascending(log)
    ensures forall e :: e in log ==> e.id <= NewestID(log)
  {
  }

  lemma UpToSnoc(log: seq<EventRow>, e: EventRow, through: nat)
    requires Ascending(log) && NewestID(log) < e.id
    ensures Ascending(log + [e])
    ensures through < e.id ==> UpTo(log + [e], through) == UpTo(log, through)
    ensures through < e.id ==> After(log + [e], through) == After(log, through) + [e]
    ensures through >= e.id ==> UpTo(log + [e], through) == log + [e]
  {
    assert (log + [e])[..|log|] == log;
  }

  lemma {:induction false} UpToPrefix(log: seq<EventRow>, n: nat, through: nat)
    requires Ascending(log) && n <= |log|
    requires through == NewestID(log[..n])
    ensures UpTo(log, through) == log[..n]
    ensures After(log, through) == log[n..]
  {
    if n == |log| {
      assert log[..n] == log;
      assert log[n..] == [];
    } else {
      var init := log[..|log| - 1];
      assert init[..n] == log[..n];
      UpToPrefix(init, n, through);
      assert log[n..] == init[n..] + [log[|log| - 1]];
      if n > 0 {
        assert log[..n][n - 1] == log[n - 1];
      }
    }
  }

  lemma FullPrefix(log: seq<EventRow>)
    requires Ascending(log)
    ensures UpTo(log, NewestID(log)) == log
  {
  }

  /** A whole prefix read up to an id, and a further piece of what comes after it. */
  lemma BatchIsNextPrefix(log: seq<EventRow>, through: nat, batch: seq<EventRow>)
    requires Ascending(log) && batch <= After(log, through) && batch != []
    ensures var more := UpTo(log, through) + batch;
            && more <= log && Ascending(more) && NewestID(more) == LastID(batch, through)
            && UpTo(log, LastID(batch, through)) == more
  {
    UpToAfter(log, through);
    var more := UpTo(log, through) + batch;
    assert log == UpTo(log, through) + After(log, through);
    assert more == log[..|more|];
    AscendingPrefix(log, |more|);
    UpToPrefix(log, |more|, NewestID(more));
  }

  // ---------------------------------------------------------------- each step keeps the invariant

  lemma BuildSurvivesIngest(s: Session, e: EventRow, st: TurnState, through: nat)
    requires Ascending(s.log) && NewestID(s.log) < e.id
    requires BuildInProgress(s, st, through)
    ensures UpTo(s.log + [e], through) == UpTo(s.log, through)
    ensures After(s.log + [e], through) == After(s.log, through) + [e]
  {
    UpToAfter(s.log, through);
    NewestIsLargest(s.log);
    if s.row.None? && UpTo(s.log, through) != [] {
      assert UpTo(s.log, through)[|UpTo(s.log, through)| - 1] in s.log;
    }
    UpToSnoc(s.log, e, through);
  }

  /** Ingest into a session whose index it keeps: the index follows the log. */
  lemma IndexCurrentExtends(s: Session, e: EventRow, r: IndexRow)
    requires Ascending(s.log) && NewestID(s.log) < e.id
    requires Indexed(s, r, s.log) && r.version == s.running
    ensures IndexCurrent(s, e, r) ==
            s.(log := s.log + [e], tables := IndexOf(RulesOf(s), s.log + [e]),
               row := Some(IndexRow(r.version, e.id, StateOf(RulesOf(s), s.log + [e]))))
    ensures UpTo(s.log + [e], e.id) == s.log + [e]
  {
    UpToSnoc(s.log, e, e.id);
    WriteExtends(RulesOf(s), s.log, e, true);
  }

  /** Ingest that leaves the index alone, because older events wait or other rules built it. */
  lemma IngestSkipsIndex(s: Session, e: EventRow)
    requires Inv(s) && NewestID(s.log) < e.id
    requires if s.row.Some? then s.row.value.version != s.running else s.log != []
    ensures Inv(s.(log := s.log + [e]))
  {
    hide IndexOf, StateOf, UpTo, After;
    UpToSnoc(s.log, e, 0);
    if s.row.Some? {
      RowBehind(s, s.row.value);
      UpToSnoc(s.log, e, s.row.value.through);
    }
    if s.builder.Building? {
      BuildSurvivesIngest(s, e, s.builder.state, s.builder.through);
    } else if s.builder.Finishing? {
      BuildSurvivesIngest(s, e, s.builder.state, s.builder.through);
    }
  }

  /** Ingest that indexes its event, in a current session or by opening a brand-new one. A build that
      had just emptied the session is left with nothing to do but abort. */
  lemma IngestIndexes(s: Session, e: EventRow, r: IndexRow)
    requires Inv(s) && NewestID(s.log) < e.id
    requires if s.row.Some? then r == s.row.value && r.version == s.running
             else s.log == [] && r == IndexRow(s.running, 0, FreshState)
    ensures Inv(IndexCurrent(s, e, r))
    ensures IndexCurrent(s, e, r).log == s.log + [e]
  {
    ReadyToIndex(s, r);
    hide Inv, Indexed, IndexOf, StateOf, WriteEventTurn, UpTo, After;
    IndexCurrentExtends(s, e, r);
    IndexedAgain(s, IndexCurrent(s, e, r), e, r.version);
    IndexedSessionInv(s, IndexCurrent(s, e, r), e);
  }

  lemma ReadyToIndex(s: Session, r: IndexRow)
    requires Inv(s)
    requires if s.row.Some? then r == s.row.value && r.version == s.running
             else s.log == [] && r == IndexRow(s.running, 0, FreshState)
    ensures Ascending(s.log) && Indexed(s, r, s.log)
  {
  }

  lemma IndexedAgain(s: Session, s': Session, e: EventRow, version: int)
    requires version == s.running
    requires s' == s.(log := s.log + [e], tables := IndexOf(RulesOf(s), s.log + [e]),
                      row := Some(IndexRow(version, e.id, StateOf(RulesOf(s), s.log + [e]))))
    ensures Indexed(s', s'.row.value, s'.log)
  {
  }

  lemma IndexedSessionInv(s: Session, s': Session, e: EventRow)
    requires Inv(s) && NewestID(s.log) < e.id && (s.row.None? ==> s.log == [])
    requires s' == s.(log := s.log + [e], tables := s'.tables, row := s'.row)
    requires Current(s') && Indexed(s', s'.row.value, s'.log)
    ensures Inv(s')
  {
    hide IndexOf, StateOf, UpTo, After;
    UpToSnoc(s.log, e, 0);
    if s.builder.Building? {
      BuildSurvivesIngest(s, e, s.builder.state, s.builder.through);
      BuildLeftBehind(s, s', s.builder.state, s.builder.through);
    } else if s.builder.Finishing? {
      BuildLeftBehind(s, s', s.builder.state, s.builder.through);
    }
    IndexedInv(s');
  }

  lemma BuildLeftBehind(s: Session, s': Session, st: TurnState, through: nat)
    requires BuildInProgress(s, st, through) && (s.row.None? ==> s.log == [])
    requires Current(s') && s'.log != []
    ensures BuildInProgress(s', st, through)
  {
    assert UpTo([], through) == [];
  }

  /** The invariant of a session that was just indexed to its newest event. */
  lemma IndexedInv(s: Session)
    requires Ascending(s.log) && s.row.Some? && Indexed(s, s.row.value, s.log)
    requires s.builder.Building? ==>
               && BuildInProgress(s, s.builder.state, s.builder.through)
               && s.builder.batch <= After(s.log, s.builder.through)
    requires s.builder.Finishing? ==> BuildInProgress(s, s.builder.state, s.builder.through)
    ensures Inv(s)
  {
    FullPrefix(s.log);
  }

  lemma IngestKeepsInv(s: Session, e: EventRow)
    requires Inv(s) && NewestID(s.log) < e.id
    ensures Inv(IndexEventInTx(s, e))
    ensures IndexEventInTx(s, e).log == s.log + [e]
  {
    if s.row.Some? {
      if s.row.value.version == s.running {
        IngestIndexes(s, e, s.row.value);
      } else {
        IngestSkipsIndex(s, e);
      }
    } else if s.log == [] {
      IngestIndexes(s, e, IndexRow(s.running, 0, FreshState));
    } else {
      IngestSkipsIndex(s, e);
    }
  }

  lemma RowBehind(s: Session, r: IndexRow)
    requires Ascending(s.log) && Indexed(s, r, UpTo(s.log, r.through))
    ensures r.through <= NewestID(s.log)
  {
    UpToAfter(s.log, r.through);
    NewestIsLargest(s.log);
    var done := UpTo(s.log, r.through);
    if done != [] {
      assert done[|done| - 1] in s.log;
    }
  }

  /** A transaction of a build: either the build is alone and its tables become the index of a longer
      prefix, or ingest opened the index first and the transaction aborts on a key. */
  lemma BuildTransaction(s: Session, st: TurnState, through: nat, batch: seq<EventRow>)
    requires Inv(s) && BuildInProgress(s, st, through)
    requires batch <= After(s.log, through) && batch != []
    ensures s.row.None? ==>
              var more := UpTo(s.log, LastID(batch, through));
              && WriteAll(RulesOf(s), s.tables, st, batch) == Written(IndexOf(RulesOf(s), more), StateOf(RulesOf(s), more))
              && NewestID(more) == LastID(batch, through)
    ensures s.row.Some? ==> WriteAll(RulesOf(s), s.tables, st, batch).Aborted?
  {
    hide IndexOf, StateOf, UpTo, WriteAll;
    BatchIsNextPrefix(s.log, through, batch);
    if s.row.None? {
      WriteAllExtends(RulesOf(s), UpTo(s.log, through), batch);
    } else {
      UpToAfter(s.log, 0);
      assert batch[0] == s.log[0];
      AllIndexed(RulesOf(s), s.log, s.log[0]);
      FirstAborts(RulesOf(s), s.tables, st, batch);
    }
  }

  lemma AllIndexed(rules: Rules, log: seq<EventRow>, e: EventRow)
    requires Ascending(log) && e in log
    ensures e.id in IndexOf(rules, log).eventTurns
  {
    var i :| 0 <= i < |log| && log[i] == e;
    TaggedAt(rules, log, i);
    EventTurnsKeys(Tagged(rules, log));
    assert Tagged(rules, log)[i] in Tagged(rules, log);
  }

  /** Writing an event twice violates the event_turns key, so the transaction rolls back. */
  lemma {:induction false} FirstAborts(rules: Rules, t: Tables, st: TurnState, batch: seq<EventRow>)
    requires batch != [] && batch[0].id in t.eventTurns
    ensures WriteAll(rules, t, st, batch).Aborted?
  {
    if |batch| > 1 {
      FirstAborts(rules, t, st, batch[..|batch| - 1]);
    } else {
      assert batch[..0] == [];
    }
  }

  lemma ChunkKeepsInv(s: Session, st: TurnState, through: nat, batch: seq<EventRow>)
    requires Inv(s) && s.builder == Building(st, through, batch) && batch != []
    ensures Inv(WriteChunk(s, st, through, batch))
  {
    hide IndexOf, StateOf, UpTo, WriteAll;
    BuildTransaction(s, st, through, batch);
  }

  /** The last transaction of a build that is alone writes the index of the whole log. */
  lemma FinishTransaction(s: Session, st: TurnState, through: nat)
    requires Ascending(s.log) && s.row.None? && BuildInProgress(s, st, through)
    ensures var rest := After(s.log, through);
            && WriteAll(RulesOf(s), s.tables, st, rest) == Written(IndexOf(RulesOf(s), s.log), StateOf(RulesOf(s), s.log))
            && LastID(rest, through) == NewestID(s.log)
  {
    hide IndexOf, StateOf;
    var done, rest := UpTo(s.log, through), After(s.log, through);
    UpToAfter(s.log, through);
    WriteAllExtends(RulesOf(s), done, rest);
    if rest == [] {
      assert done == s.log;
    } else {
      BatchIsNextPrefix(s.log, through, rest);
    }
  }

  lemma FinishKeepsInv(s: Session, st: TurnState, through: nat)
    requires Inv(s) && s.builder == Finishing(st, through)
    ensures Inv(FinishBuild(s, st, through))
  {
    if s.row.None? {
      FinishTransaction(s, st, through);
      IndexedInv(FinishBuild(s, st, through));
    } else {
      FinishAborts(s, st, through);
      assert FinishBuild(s, st, through) == s.(builder := Idle);
    }
  }

  lemma FinishAborts(s: Session, st: TurnState, through: nat)
    requires Inv(s) && s.row.Some? && BuildInProgress(s, st, through)
    ensures WriteAll(RulesOf(s), s.tables, st, After(s.log, through)).Aborted?
  {
    hide IndexOf, StateOf, WriteAll;
    UpToAfter(s.log, through);
    assert UpTo(s.log, 0) + After(s.log, 0) == After(s.log, 0);
    BuildTransaction(s, st, through, After(s.log, through));
  }

  lemma DeleteKeepsInv(s: Session)
    requires Inv(s)
    ensures Inv(Next(s, BuilderDelete))
  {
    hide IndexOf, StateOf, UpTo, After;
    UpToAfter(s.log, 0);
    NothingIndexed(RulesOf(s));
  }

  lemma NothingIndexed(rules: Rules)
    ensures IndexOf(rules, []) == EmptyTables && StateOf(rules, []) == FreshState
  {
  }

  lemma ReadKeepsInv(s: Session)
    requires Inv(s)
    ensures Inv(Next(s, BuilderRead))
  {
    hide IndexOf, StateOf, UpTo, After;
  }

  /** Every step but an unsafe restart keeps the invariant. */
  lemma StepKeepsInv(s: Session, step: Step)
    requires Inv(s) && StepSafe(s, step)
    ensures Inv(Next(s, step))
  {
    match step {
      case Ingest(e) =>
        if NewestID(s.log) < e.id {
          IngestKeepsInv(s, e);
        }
      case BuilderChunk =>
        if s.builder.Building? && s.builder.batch != [] {
          ChunkKeepsInv(s, s.builder.state, s.builder.through, s.builder.batch);
        }
      case BuilderFinish =>
        if s.builder.Finishing? {
          FinishKeepsInv(s, s.builder.state, s.builder.through);
        }
      case Restart(v) =>
        if s.row.Some? && s.row.value.version == v {
          FullPrefix(s.log);
        }
      case BuilderDelete => DeleteKeepsInv(s);
      case BuilderRead => ReadKeepsInv(s);
      case BuilderCheck =>
      case BuilderError =>
    }
  }

  /** In every reachable state, whatever a crashed build left behind, a session whose index row carries
      the running version is indexed exactly: the tables are the turn rule folded over all its events. */
  lemma {:induction false} CurrentIndexIsExact(s: Session, steps: seq<Step>)
    requires Init(s) && RunSafe(s, steps)
    ensures Inv(Run(s, steps))
    ensures CurrentIsExact(Run(s, steps))
  {
    hide Init, Inv, Next, StepSafe, CurrentIsExact;
    if steps == [] {
      InitIsInv(s);
    } else {
      var n := |steps| - 1;
      forall k | 0 <= k < n ensures StepSafe(Run(s, steps[..n][..k]), steps[..n][k]) {
        assert steps[..n][..k] == steps[..k];
      }
      CurrentIndexIsExact(s, steps[..n]);
      StepKeepsInv(Run(s, steps[..n]), steps[n]);
    }
    InvIsExact(Run(s, steps));
  }

  lemma InitIsInv(s: Session)
    requires Init(s)
    ensures Inv(s)
  {
  }

  lemma InvIsExact(s: Session)
    requires Inv(s)
    ensures CurrentIsExact(s)
  {
  }

  /** A build that was given up - by an error, a crash or a restart - does nothing more: none of its steps has
      any effect until a new build checks the session again. */
  lemma AbandonedBuildStops(s: Session, end: Step, later: Step)
    requires end.BuilderError? || end.Restart?
    requires later.BuilderDelete? || later.BuilderRead? || later.BuilderChunk? || later.BuilderFinish?
    ensures Next(Next(s, end), later) == Next(s, end)
    ensures Next(s, end).log == s.log && Next(s, end).tables == s.tables && Next(s, end).row == s.row
  {
  }

  /** A build reads 2000 events at a time, the oldest it has not written yet; with fewer left, they wait for
      the last transaction. */
  lemma ReadTakesAChunk(s: Session)
    requires s.builder.Building? && s.builder.batch == []
    ensures var left, s' := After(s.log, s.builder.through), Next(s, BuilderRead);
            && s' == s.(builder := s'.builder)
            && (|left| >= 2000 ==> s'.builder == Building(s.builder.state, s.builder.through, left[..2000]))
            && (|left| < 2000 ==> s'.builder == Finishing(s.builder.state, s.builder.through))
  {
    hide After;
    var left := After(s.log, s.builder.through);
    if |left| == 2000 {
      assert left[..2000] == left;
    }
  }

  // ---------------------------------------------------------------- an index that ingest alone keeps

  /** Storing an event into a current session indexes it and leaves the session current. */
  lemma IngestKeepsCurrent(s: Session, e: EventRow)
    requires Inv(s) && Current(s) && NewestID(s.log) < e.id
    ensures var log := s.log + [e];
            Next(s, Ingest(e)) == s.(log := log, tables := IndexOf(RulesOf(s), log),
                                     row := Some(IndexRow(s.running, e.id, StateOf(RulesOf(s), log))))
  {
    hide IndexOf, StateOf, UpTo, After, WriteEventTurn;
    IndexCurrentExtends(s, e, s.row.value);
  }

  /** The first event of a brand-new session opens its index. */
  lemma FirstEventOpensIndex(s: Session, e: EventRow)
    requires Inv(s) && s.row.None? && s.log == [] && 0 < e.id
    ensures Next(s, Ingest(e)) == s.(log := [e], tables := IndexOf(RulesOf(s), [e]),
                                     row := Some(IndexRow(s.running, e.id, StateOf(RulesOf(s), [e]))))
  {
    hide IndexOf, StateOf, UpTo, After, WriteEventTurn;
    NothingIndexed(RulesOf(s));
    ReadyToIndex(s, IndexRow(s.running, 0, FreshState));
    IndexCurrentExtends(s, e, IndexRow(s.running, 0, FreshState));
    assert [] + [e] == [e];
  }

  /** Storing an event leaves the session current if and only if it was, or had neither events nor a row. */
  lemma IngestLeavesCurrentIff(s: Session, e: EventRow)
    requires Inv(s) && NewestID(s.log) < e.id
    ensures Current(Next(s, Ingest(e))) <==> Current(s) || (s.row.None? && s.log == [])
    ensures !Current(Next(s, Ingest(e))) ==> Next(s, Ingest(e)) == s.(log := s.log + [e])
  {
    hide IndexOf, StateOf, WriteEventTurn, Inv;
    if Current(s) {
      IngestKeepsCurrent(s, e);
    } else if s.row.None? && s.log == [] {
      FirstEventOpensIndex(s, e);
    }
  }

  function Ingests(events: seq<EventRow>): (steps: seq<Step>)
    ensures |steps| == |events|
  {
    seq(|events|, i requires 0 <= i < |events| => Ingest(events[i]))
  }

  /** A session that only ever ingests, from its first event on, is indexed exactly at every moment and never
      needs a build. */
  lemma {:induction false} IngestAloneKeepsIndex(s: Session, events: seq<EventRow>)
    requires Init(s) && s.log == [] && Ascending(events) && events != []
    ensures Run(s, Ingests(events)) ==
            s.(log := events, tables := IndexOf(RulesOf(s), events),
               row := Some(IndexRow(s.running, NewestID(events), StateOf(RulesOf(s), events))))
    ensures Inv(Run(s, Ingests(events))) && Current(Run(s, Ingests(events)))
  {
    hide IndexOf, StateOf, WriteEventTurn, Inv, Init, Next, UpTo, After;
    var init, e := events[..|events| - 1], events[|events| - 1];
    assert Ingests(events) == Ingests(init) + [Ingest(e)];
    RunOne(s, Ingests(init), Ingest(e));
    InitIsInv(s);
    if init == [] {
      assert events == [e] && Run(s, []) == s;
      NothingRow(s);
      FirstEventOpensIndex(s, e);
      IngestKeepsInv(s, e);
    } else {
      AscendingPrefix(events, |init|);
      IngestAloneKeepsIndex(s, init);
      var before := Run(s, Ingests(init));
      assert init + [e] == events;
      IngestKeepsCurrent(before, e);
      IngestKeepsInv(before, e);
    }
    IngestIsNext(Run(s, Ingests(init)), e);
  }

  lemma NothingRow(s: Session)
    requires Init(s)
    ensures s.row.None?
  {
  }

  lemma IngestIsNext(s: Session, e: EventRow)
    requires NewestID(s.log) < e.id
    ensures Next(s, Ingest(e)) == IndexEventInTx(s, e)
  {
    hide IndexEventInTx;
  }

  /** A restart keeps the current index exact if and only if its guard holds. */
  lemma RestartExactIffSafe(s: Session, v: int)
    requires Inv(s)
    ensures CurrentIsExact(Next(s, Restart(v))) <==> RestartSafe(s, v)
  {
    FullPrefix(s.log);
  }

  /** Restarting under the version already running, or under one the row was not built by, is safe. */
  lemma RestartForwardIsSafe(s: Session, v: int)
    requires Inv(s)
    requires v == s.running || (s.row.Some? ==> s.row.value.version != v)
    ensures RestartSafe(s, v)
  {
  }

  lemma RunOne(s: Session, steps: seq<Step>, step: Step)
    ensures Run(s, steps + [step]) == Next(Run(s, steps), step)
  {
    assert (steps + [step])[..|steps|] == steps;
  }

  lemma RunStep(s: Session, steps: seq<Step>, step: Step, all: seq<Step>, before: Session, after: Session)
    requires all == steps + [step]
    requires Run(s, steps) == before && Next(before, step) == after
    ensures Run(s, all) == after
  {
    RunOne(s, steps, step);
  }

  /** Ingest under rules other than the row's only appends to the log. */
  lemma ForeignIngest(s: Session, e: EventRow)
    requires s.row.Some? && s.row.value.version != s.running && NewestID(s.log) < e.id
    ensures Next(s, Ingest(e)) == s.(log := s.log + [e])
  {
  }

  lemma RunRestart(s: Session, steps: seq<Step>, all: seq<Step>, v: int, before: Session)
    requires all == steps + [Restart(v)]
    requires Run(s, steps) == before && before.builder == Idle
    ensures Run(s, all) == before.(running := v)
  {
    RunOne(s, steps, Restart(v));
  }

  /** A current session whose index misses an event keeps missing it. */
  lemma IngestOverGap(s: Session, indexed: seq<EventRow>, e: EventRow)
    requires Current(s) && s.tables == IndexOf(RulesOf(s), indexed) && s.row.value.state == StateOf(RulesOf(s), indexed)
    requires Ascending(indexed + [e]) && NewestID(s.log) < e.id
    ensures Next(s, Ingest(e)) ==
            s.(log := s.log + [e], tables := IndexOf(RulesOf(s), indexed + [e]),
               row := Some(IndexRow(s.running, e.id, StateOf(RulesOf(s), indexed + [e]))))
  {
    hide IndexOf, StateOf, WriteEventTurn;
    WriteExtends(RulesOf(s), indexed, e, true);
  }

  /** The claim fails for a rollback, from every current session. Rules `w` store one event without
      rebuilding, and the old rules come back: the row says current, the next event is indexed on top,
      and the one between is in no turn and will not be looked for again. */
  lemma RollbackLosesAnEvent(s: Session, w: int, e: EventRow, f: EventRow)
    requires Inv(s) && Current(s) && s.builder == Idle && w != s.running
    requires NewestID(s.log) < e.id < f.id
    ensures var s' := Run(s, [Restart(w), Ingest(e), Restart(s.running), Ingest(f)]);
            && Current(s') && s'.log == s.log + [e] + [f]
            && s'.row.value.through == NewestID(s'.log) && s'.tables == IndexOf(RulesOf(s), s.log + [f])
            && e.id !in s'.tables.eventTurns
  {
    RollbackRun(s, w, e, f);
    EventMissing(RulesOf(s), s.log, e, f);
  }

  lemma RollbackRun(s: Session, w: int, e: EventRow, f: EventRow)
    requires Ascending(s.log) && Current(s) && Indexed(s, s.row.value, s.log) && s.builder == Idle && w != s.running
    requires NewestID(s.log) < e.id < f.id
    ensures Run(s, [Restart(w), Ingest(e), Restart(s.running), Ingest(f)]) ==
            s.(log := s.log + [e] + [f], tables := IndexOf(RulesOf(s), s.log + [f]),
               row := Some(IndexRow(s.running, f.id, StateOf(RulesOf(s), s.log + [f]))))
  {
    hide IndexOf, StateOf, Next, Run;
    var gap := s.(log := s.log + [e]);
    RollbackToGap(s, w, e);
    UpToSnoc(s.log, f, 0);
    IngestOverGap(gap, s.log, f);
    RunStep(s, [Restart(w), Ingest(e), Restart(s.running)], Ingest(f),
            [Restart(w), Ingest(e), Restart(s.running), Ingest(f)], gap, Next(gap, Ingest(f)));
  }

  lemma RollbackToGap(s: Session, w: int, e: EventRow)
    requires Current(s) && s.builder == Idle && w != s.running && NewestID(s.log) < e.id
    ensures Run(s, [Restart(w), Ingest(e), Restart(s.running)]) == s.(log := s.log + [e])
  {
    var a, b, c := Restart(w), Ingest(e), Restart(s.running);
    var s1 := s.(running := w);
    var s2 := s1.(log := s.log + [e]);
    RunRestart(s, [], [a], w, s);
    ForeignIngest(s1, e);
    RunStep(s, [a], b, [a, b], s1, s2);
    RunRestart(s, [a, b], [a, b, c], s.running, s2);
  }

  lemma EventMissing(rules: Rules, log: seq<EventRow>, e: EventRow, f: EventRow)
    requires Ascending(log) && NewestID(log) < e.id < f.id
    ensures e.id !in IndexOf(rules, log + [f]).eventTurns
  {
    var rows := Tagged(rules, log + [f]);
    EventTurnsKeys(rows);
    NewestIsLargest(log);
    forall b | b in rows ensures b.row.id != e.id {
      var i :| 0 <= i < |rows| && rows[i] == b;
      TaggedAt(rules, log + [f], i);
      if i < |log| {
        assert log[i] in log;
      }
    }
  }
}
