/** The turn index as the store keeps it: a transaction object the write goes into, and the store's own
    fields, against the specification of TurnIndex and IndexProtocol. */
module IndexStore {
  import opened Options
  import opened Events
  import opened TurnRule
  import opened IndexRules
  import opened TurnIndex
  import opened IndexFacts
  import opened IndexProtocol

  /** sessionTurnState. */
  class SessionTurnState {
    var lastTurnID: string
    var nextTurnSeq: nat

    constructor (lastTurnID: string, nextTurnSeq: nat)
      ensures Value() == TurnState(lastTurnID, nextTurnSeq)
    {
      this.lastTurnID, this.nextTurnSeq := lastTurnID, nextTurnSeq;
    }

    function Value(): TurnState
      reads this
    {
      TurnState(lastTurnID, nextTurnSeq)
    }

    /** assignTurn. */
    method AssignTurn(eventID: nat, rawTurnID: string) returns (turnID: string)
      modifies this
      ensures turnID == Resolve(old(lastTurnID), eventID, rawTurnID)
      ensures lastTurnID == turnID && nextTurnSeq == old(nextTurnSeq)
    {
      turnID := Resolve(lastTurnID, eventID, rawTurnID);
      lastTurnID := turnID;
    }
  }

  /** The unique index on (session_id, turn_id). */
  ghost predicate UniqueTurnIDs(turns: map<nat, TurnRow>) {
    forall j, k :: j in turns && k in turns && turns[j].turnID == turns[k].turnID ==> j == k
  }

  /** A write transaction over one session's tables; dropped, not committed, when a write is refused. */
  class Transaction {
    var eventTurns: map<nat, nat>
    var turns: map<nat, TurnRow>
    var candidates: seq<Candidate>

    constructor (t: Tables)
      ensures View() == t
    {
      eventTurns, turns, candidates := t.eventTurns, t.turns, t.candidates;
    }

    function View(): Tables
      reads this
    {
      Tables(eventTurns, turns, candidates)
    }

    /** writeEventTurn; false is a key violation. */
    method WriteEventTurn(st: SessionTurnState, row: EventRow, withData: bool) returns (ok: bool)
      requires UniqueTurnIDs(turns)
      modifies this, st
      ensures var w := TurnIndex.WriteEventTurn(OwnRules, old(View()), old(st.Value()), row, withData);
              && (ok <==> w.Written?)
              && (ok ==> View() == w.tables && st.Value() == w.state && UniqueTurnIDs(turns))
    {
      hide TurnIndex.WriteEventRows;
      var turnID := st.AssignTurn(row.id, row.rawTurnID);
      var isOpen, turnSeq := OpenOrExtendTurn(st, turnID, row);
      if !isOpen {
        return false;
      }
      ok := WriteEventRows(row, turnSeq, withData, st);
    }

    /** The turns row: a new one under the next number, or the one the turn id already has. */
    method OpenOrExtendTurn(st: SessionTurnState, turnID: string, row: EventRow) returns (ok: bool, turnSeq: nat)
      requires UniqueTurnIDs(turns)
      modifies this`turns, st`nextTurnSeq
      ensures var found, isPrompt := FindTurn(old(turns), turnID), row.typ == UserMessage;
              if found.Some? then
                var was := old(turns)[found.value];
                && ok && turnSeq == found.value && st.nextTurnSeq == old(st.nextTurnSeq)
                && turns == old(turns)[turnSeq := was.(lastEventID := row.id, eventCount := was.eventCount + 1,
                                                       hasUserMessage := was.hasUserMessage || isPrompt)]
              else
                && turnSeq == old(st.nextTurnSeq) && st.nextTurnSeq == turnSeq + 1
                && (ok <==> turnSeq !in old(turns))
                && (ok ==> turns == old(turns)[turnSeq := TurnRow(turnID, row.id, row.id, 1, isPrompt)])
      ensures ok ==> UniqueTurnIDs(turns)
    {
      var isPrompt := row.typ == UserMessage;
      if exists k :: k in turns && turns[k].turnID == turnID {
        var k :| k in turns && turns[k].turnID == turnID;
        FindTurnUnique(turns, turnID, k);
        var was := turns[k];
        turns := turns[k := was.(lastEventID := row.id, eventCount := was.eventCount + 1,
                                 hasUserMessage := was.hasUserMessage || isPrompt)];
        return true, k;
      }
      turnSeq := st.nextTurnSeq;
      st.nextTurnSeq := st.nextTurnSeq + 1;
      if turnSeq in turns {
        return false, turnSeq;
      }
      turns := turns[turnSeq := TurnRow(turnID, row.id, row.id, 1, isPrompt)];
      ok := true;
    }

    /** The inserts into event_turns and dedup_candidates. */
    method WriteEventRows(row: EventRow, turnSeq: nat, withData: bool, ghost st: SessionTurnState) returns (ok: bool)
      modifies this
      ensures var w := TurnIndex.WriteEventRows(OwnRules, old(View()), st.Value(), row, turnSeq, withData);
              && (ok <==> w.Written?) && (ok ==> View() == w.tables && w.state == st.Value())
      ensures turns == old(turns)
    {
      if row.id in eventTurns {
        return false;
      }
      eventTurns := eventTurns[row.id := turnSeq];
      if withData {
        var c := CandidateOf(row);
        if c.Some? {
          if exists d :: d in candidates && d.eventID == row.id {
            return false;
          }
          candidates := InsertCandidate(candidates, Candidate(row.id, turnSeq, c.value.key, c.value.source));
        }
      }
      ok := true;
    }
  }

  /** Writing a batch read back from the events table. */
  method WriteBatch(tx: Transaction, st: SessionTurnState, batch: seq<EventRow>) returns (ok: bool)
    requires UniqueTurnIDs(tx.turns)
    modifies tx, st
    ensures var w := WriteAll(OwnRules, old(tx.View()), old(st.Value()), batch);
            && (ok <==> w.Written?)
            && (ok ==> tx.View() == w.tables && st.Value() == w.state && UniqueTurnIDs(tx.turns))
  {
    hide TurnIndex.WriteEventTurn;
    ghost var t0, s0 := tx.View(), st.Value();
    for i := 0 to |batch|
      invariant WriteAll(OwnRules, t0, s0, batch[..i]) == Written(tx.View(), st.Value())
      invariant UniqueTurnIDs(tx.turns)
    {
      assert batch[..i + 1][..i] == batch[..i];
      var written := tx.WriteEventTurn(st, batch[i], CandidateType(batch[i].typ));
      if !written {
        AbortedStays(OwnRules, t0, s0, batch, i + 1);
        return false;
      }
    }
    assert batch[..|batch|] == batch;
    ok := true;
  }

  lemma {:induction false} AbortedStays(rules: Rules, t: Tables, st: TurnState, batch: seq<EventRow>, n: nat)
    requires n <= |batch| && WriteAll(rules, t, st, batch[..n]).Aborted?
    ensures WriteAll(rules, t, st, batch).Aborted?
    decreases |batch| - n
  {
    if n < |batch| {
      assert batch[..n + 1][..n] == batch[..n];
      AbortedStays(rules, t, st, batch, n + 1);
    } else {
      assert batch[..n] == batch;
    }
  }

  /** One session's share of the store. */
  class Store {
    var log: seq<EventRow>
    var running: int
    var row: Option<IndexRow>
    var tables: Tables
    ghost const rules: int -> Rules

    /** The session as the protocol sees it between builds. */
    ghost function View(): Session
      reads this
    {
      Session(log, running, row, tables, Idle, rules)
    }

    /** What the database enforces by itself, rising rowids and the unique turn id index; and the rules of the
        version at work are the ones below. */
    ghost predicate Valid()
      reads this
    {
      Ascending(log) && UniqueTurnIDs(tables.turns) && rules(running) == OwnRules
    }

    constructor (running: int, ghost rules: int -> Rules)
      requires rules(running) == OwnRules
      ensures Valid() && View() == Session([], running, None, EmptyTables, Idle, rules)
    {
      log, this.running, row, tables := [], running, None, EmptyTables;
      this.rules := rules;
    }

    /** StoreEvent with indexEventInTx: the event and its place in the index in one transaction. */
    method StoreEvent(e: EventRow) returns (ok: bool)
      requires Valid() && NewestID(log) < e.id
      modifies this
      ensures Valid() && View() == IndexEventInTx(old(View()), e)
      ensures ok <==> log == old(log) + [e]
      ensures !ok ==> log == old(log)
      ensures running == old(running)
      ensures old(OpensIndex(View())) || old(Current(View()) && CurrentIsExact(View())) ==>
                && ok && tables == IndexOf(OwnRules, log)
                && row == Some(IndexRow(running, e.id, StateOf(OwnRules, log)))
      ensures !old(row.None? && log == []) && !old(Current(View())) ==> ok && row == old(row) && tables == old(tables)
    {
      hide TurnIndex.WriteEventTurn, Ascending, UniqueTurnIDs, NewestID, IndexOf, StateOf, OpensIndex, CurrentIsExact;
      LogWith(log, e);
      IndexedIngest(View(), e);
      assert |log + [e]| != |log|;
      var current: IndexRow;
      if row.Some? {
        if row.value.version != running {
          log := log + [e];
          return true;
        }
        current := row.value;
      } else {
        if |log| > 0 {
          log := log + [e];
          return true;
        }
        current := IndexRow(running, 0, FreshState);
      }
      var st := new SessionTurnState(current.state.lastTurnID, current.state.nextTurnSeq);
      var tx := new Transaction(tables);
      var written := tx.WriteEventTurn(st, e, true);
      if !written {
        return false;
      }
      log := log + [e];
      tables := tx.View();
      row := Some(IndexRow(current.version, e.id, st.Value()));
      ok := true;
    }

    /** deletePartialTurnIndex. */
    method DeletePartialTurnIndex()
      requires Valid()
      modifies this
      ensures Valid() && View() == old(View()).(row := None, tables := EmptyTables)
    {
      row, tables := None, EmptyTables;
    }

    /** BuildTurnIndex with no other writer between its transactions: afterwards the session is current and
        its index is exact, from whatever was in the tables before. A session already current is left alone. */
    method BuildTurnIndex() returns (ok: bool)
      requires Valid()
      modifies this
      ensures Valid() && ok && log == old(log) && running == old(running) && Current(View())
      ensures Current(old(View())) ==> View() == old(View())
      ensures !Current(old(View())) ==>
                row == Some(IndexRow(running, NewestID(log), StateOf(OwnRules, log))) && tables == IndexOf(OwnRules, log)
    {
      var builder := new IndexBuilder(this);
      ok := builder.BuildTurnIndex();
    }

    /** validator: index the session first when its index is not current, then read the turns table.
        CurrentIsExact holds in every reachable state. */
    method Validator() returns (maxEventID: nat, eventCount: nat)
      requires Valid() && CurrentIsExact(View())
      modifies this
      ensures Valid() && Current(View()) && CurrentIsExact(View()) && log == old(log)
      ensures Current(old(View())) ==> View() == old(View())
      ensures maxEventID == NewestID(log) && eventCount == |log|
    {
      var ok := BuildTurnIndex();
      maxEventID, eventCount := ReadValidator();
    }

    /** The newest event id and the event count, read off the turns table. */
    method ReadValidator() returns (maxEventID: nat, eventCount: nat)
      requires Valid() && Current(View()) && CurrentIsExact(View())
      ensures maxEventID == NewestID(log) && eventCount == |log|
    {
      hide TurnIDs, Keep, Tagged, TurnsOf, EventTurnsOf, CandidatesOf;
      maxEventID, eventCount := 0, 0;
      ghost var rows := Tagged(OwnRules, log);
      ghost var seen: set<string> := {};
      var left := tables.turns.Keys;
      NothingCounted(OwnRules, log);
      while left != {}
        invariant left <= tables.turns.Keys && seen == TurnIDsOfKeys(tables.turns, tables.turns.Keys - left)
        invariant eventCount == |Keep(rows, seen)|
        invariant forall k :: k in tables.turns && k !in left ==> tables.turns[k].lastEventID <= maxEventID
        invariant maxEventID == 0 || exists k :: k in tables.turns && tables.turns[k].lastEventID == maxEventID
        decreases left
      {
        var k :| k in left;
        var turn := tables.turns[k];
        CountOneMore(OwnRules, log, tables.turns.Keys - left, k);
        assert tables.turns.Keys - (left - {k}) == (tables.turns.Keys - left) + {k};
        eventCount := eventCount + turn.eventCount;
        if turn.lastEventID > maxEventID {
          maxEventID := turn.lastEventID;
        }
        seen := seen + {turn.turnID};
        left := left - {k};
      }
      AllCounted(OwnRules, log, maxEventID);
    }
  }

  /** Ingest neither sees nor touches a build in progress: StoreEvent is the protocol's ingest step at any
      stage of it. */
  lemma IngestBesideBuild(s: Session, e: EventRow, stage: Builder)
    requires NewestID(s.log) < e.id
    ensures Next(s.(builder := stage), Ingest(e)) == IndexEventInTx(s, e).(builder := stage)
  {
    hide WriteEventTurn;
  }

  // ---------------------------------------------------------------- the build, transaction by transaction

  /** One call of BuildTurnIndex. Each method up to FinishBuild is one of its reads or transactions, and one
      step of the protocol, whatever other writers did to the store since the one before. */
  class IndexBuilder {
    const store: Store
    var stage: Builder

    constructor (store: Store)
      ensures this.store == store && stage == Idle
    {
      this.store, this.stage := store, Idle;
    }

    /** The session with this build in progress. */
    ghost function View(): Session
      reads this, store
    {
      store.View().(builder := stage)
    }

    /** TurnIndexCurrent, which ends the call when it says yes. */
    method Check()
      requires store.Valid() && stage.Idle?
      modifies this
      ensures View() == Next(old(View()), BuilderCheck)
      ensures stage.NotCurrent? <==> !Current(store.View())
    {
      if !(store.row.Some? && store.row.value.version == store.running) {
        stage := NotCurrent;
      }
    }

    /** The transaction that clears the leftovers. */
    method Clear()
      requires store.Valid() && stage.NotCurrent?
      modifies this, store
      ensures store.Valid() && View() == Next(old(View()), BuilderDelete)
    {
      store.DeletePartialTurnIndex();
      stage := Building(FreshState, 0, []);
    }

    /** readEventTurnFields, through the reader pool. */
    method ReadBatch()
      requires store.Valid() && stage.Building? && stage.batch == []
      modifies this
      ensures View() == Next(old(View()), BuilderRead)
    {
      var batch := FirstOf(After(store.log, stage.through), CHUNK);
      if |batch| < CHUNK {
        stage := Finishing(stage.state, stage.through);
      } else {
        stage := Building(stage.state, stage.through, batch);
      }
    }

    /** The transaction that writes the batch read. */
    method WriteChunk()
      requires store.Valid() && stage.Building? && stage.batch != []
      modifies this, store
      ensures store.Valid() && View() == Next(old(View()), BuilderChunk)
    {
      hide WriteAll;
      var st := new SessionTurnState(stage.state.lastTurnID, stage.state.nextTurnSeq);
      var tx := new Transaction(store.tables);
      var ok := WriteBatch(tx, st, stage.batch);
      if !ok {
        stage := Idle;
        return;
      }
      store.tables := tx.View();
      stage := Building(st.Value(), stage.batch[|stage.batch| - 1].id, []);
    }

    /** The last transaction: it reads and writes batch after batch until a short one, then inserts the
        session's row, and rolls everything back when a key is taken. */
    method FinishBuild()
      requires store.Valid() && stage.Finishing?
      modifies this, store
      ensures store.Valid() && View() == Next(old(View()), BuilderFinish)
    {
      hide WriteAll, After, Ascending, UniqueTurnIDs;
      var st := new SessionTurnState(stage.state.lastTurnID, stage.state.nextTurnSeq);
      var tx := new Transaction(store.tables);
      var ok, through := WriteRest(tx, st);
      stage := Idle;
      if !ok {
        return;
      }
      if store.row.None? {
        store.tables := tx.View();
        store.row := Some(IndexRow(store.running, through, st.Value()));
      }
    }

    /** The reads and writes of the last transaction. */
    method WriteRest(tx: Transaction, st: SessionTurnState) returns (ok: bool, through: nat)
      requires store.Valid() && stage.Finishing? && UniqueTurnIDs(tx.turns)
      modifies tx, st
      ensures var rest := After(store.log, stage.through);
              var w := WriteAll(OwnRules, old(tx.View()), old(st.Value()), rest);
              && (ok <==> w.Written?)
              && (ok ==> tx.View() == w.tables && st.Value() == w.state && through == LastID(rest, stage.through))
      ensures ok ==> UniqueTurnIDs(tx.turns)
    {
      hide WriteAll, After, Ascending, UniqueTurnIDs, FirstOf, LastID;
      ghost var t0, s0, rest, done := tx.View(), st.Value(), After(store.log, stage.through), [];
      through := stage.through;
      var more := true;
      NothingWritten(t0, s0);
      NothingRead(stage.through);
      while more
        invariant UniqueTurnIDs(tx.turns) && WriteAll(OwnRules, t0, s0, done) == Written(tx.View(), st.Value())
        invariant done + After(store.log, through) == rest && through == LastID(done, stage.through)
        invariant !more ==> done == rest
        decreases more, |After(store.log, through)|
      {
        var batch := FirstOf(After(store.log, through), CHUNK);
        ok := WriteBatch(tx, st, batch);
        WriteAllAppends(OwnRules, t0, s0, done, batch);
        RestStep(store.log, stage.through, through, done, rest, batch);
        done := done + batch;
        if !ok {
          AbortedStays(OwnRules, t0, s0, rest, |done|);
          return;
        }
        through := LastID(batch, through);
        more := |batch| == CHUNK;
      }
      ok := true;
    }

    /** All of it with no other writer in between. */
    method BuildTurnIndex() returns (ok: bool)
      requires store.Valid() && stage.Idle?
      modifies this, store
      ensures store.Valid() && ok && stage.Idle? && Current(store.View())
      ensures store.log == old(store.log) && store.running == old(store.running)
      ensures Current(old(store.View())) ==> store.View() == old(store.View())
      ensures !Current(old(store.View())) ==>
                && store.row == Some(IndexRow(store.running, NewestID(store.log), StateOf(OwnRules, store.log)))
                && store.tables == IndexOf(OwnRules, store.log)
    {
      hide IndexOf, StateOf, UpTo, After, WriteAll, Inv, BuildInProgress;
      Check();
      if stage.Idle? {
        return true;
      }
      Clear();
      ClearedIsInv(View());
      while stage.Building?
        invariant store.Valid() && Inv(View()) && store.row.None?
        invariant stage.Building? ==> stage.batch == []
        invariant stage.Building? || stage.Finishing?
        invariant store.log == old(store.log) && store.running == old(store.running)
        decreases stage.Building?, if stage.Building? then |After(store.log, stage.through)| else 0
      {
        ghost var was := View();
        ReadBatch();
        StepKeepsInv(was, BuilderRead);
        if stage.Building? {
          was := View();
          WriteChunk();
          StepKeepsInv(was, BuilderChunk);
          AloneChunkCommits(was);
        }
      }
      ghost var was := View();
      FinishBuild();
      AloneFinishCommits(was);
      ok := true;
    }
  }

  // ---------------------------------------------------------------- facts the methods use

  /** A brand-new session: no row, no events and no leftovers. */
  ghost predicate OpensIndex(s: Session) {
    s.row.None? && s.log == [] && s.tables == EmptyTables
  }

  /** What ingest does to a session whose index it opens or keeps. */
  lemma IndexedIngest(s: Session, e: EventRow)
    requires Ascending(s.log) && NewestID(s.log) < e.id
    ensures OpensIndex(s) || (Current(s) && CurrentIsExact(s)) ==>
              var log := s.log + [e];
              IndexEventInTx(s, e) == s.(log := log, tables := IndexOf(RulesOf(s), log),
                                         row := Some(IndexRow(s.running, e.id, StateOf(RulesOf(s), log))))
  {
    hide TurnIndex.WriteEventTurn, IndexOf, StateOf, UpTo, After;
    NothingIndexed(RulesOf(s));
    if OpensIndex(s) {
      IndexCurrentExtends(s, e, IndexRow(s.running, 0, FreshState));
    } else if Current(s) && CurrentIsExact(s) {
      IndexCurrentExtends(s, e, s.row.value);
    }
  }

  lemma LogWith(log: seq<EventRow>, e: EventRow)
    requires Ascending(log) && NewestID(log) < e.id
    ensures Ascending(log + [e])
  {
    UpToSnoc(log, e, 0);
  }

  lemma NothingWritten(t: Tables, st: TurnState)
    ensures WriteAll(OwnRules, t, st, []) == Written(t, st)
  {
  }

  /** Two batches written one after the other are one batch. */
  lemma {:induction false} WriteAllAppends(rules: Rules, t: Tables, st: TurnState, a: seq<EventRow>, b: seq<EventRow>)
    ensures WriteAll(rules, t, st, a + b) ==
            match WriteAll(rules, t, st, a)
            case Aborted => Aborted
            case Written(t1, st1) => WriteAll(rules, t1, st1, b)
  {
    hide WriteEventTurn;
    if b == [] {
      assert a + b == a;
    } else {
      var init := b[..|b| - 1];
      assert (a + b)[..|a + b| - 1] == a + init;
      WriteAllAppends(rules, t, st, a, init);
    }
  }

  /** What is left after a batch. */
  lemma AfterBatch(log: seq<EventRow>, through: nat, batch: seq<EventRow>)
    requires Ascending(log) && batch <= After(log, through) && batch != []
    ensures After(log, through) == batch + After(log, batch[|batch| - 1].id)
  {
    hide UpTo, After;
    BatchIsNextPrefix(log, through, batch);
    UpToAfter(log, through);
    var now := batch[|batch| - 1].id;
    UpToAfter(log, now);
    var done := UpTo(log, through);
    assert done + After(log, through) == (done + batch) + After(log, now);
    assert After(log, through) == (done + After(log, through))[|done|..];
    assert batch + After(log, now) == (done + (batch + After(log, now)))[|done|..];
    assert done + (batch + After(log, now)) == (done + batch) + After(log, now);
  }

  /** One batch of the last transaction: what was done and what is left stay the whole rest. */
  lemma RestStep(log: seq<EventRow>, from: nat, through: nat, done: seq<EventRow>, rest: seq<EventRow>, batch: seq<EventRow>)
    requires Ascending(log) && done + After(log, through) == rest && through == LastID(done, from)
    requires batch == FirstOf(After(log, through), CHUNK)
    ensures |done + batch| <= |rest| && rest[..|done + batch|] == done + batch
    ensures done + batch + After(log, LastID(batch, through)) == rest
    ensures LastID(done + batch, from) == LastID(batch, through)
    ensures |batch| != CHUNK ==> done + batch == rest
    ensures |batch| == CHUNK ==> |After(log, LastID(batch, through))| < |After(log, through)|
  {
    hide After;
    if batch == [] {
      assert done + batch == done;
    } else {
      AfterBatch(log, through, batch);
      assert done + (batch + After(log, LastID(batch, through))) == done + batch + After(log, LastID(batch, through));
    }
  }

  lemma NothingRead(through: nat)
    ensures LastID([], through) == through
  {
  }

  lemma ClearedIsInv(s: Session)
    requires Ascending(s.log) && s.row.None? && s.tables == EmptyTables && s.builder == Building(FreshState, 0, [])
    ensures Inv(s)
  {
    hide IndexOf, StateOf, UpTo, After;
    UpToAfter(s.log, 0);
    NothingIndexed(RulesOf(s));
  }

  /** A build that is alone commits every chunk, and gets on with it. */
  lemma AloneChunkCommits(s: Session)
    requires Inv(s) && s.row.None? && s.builder.Building? && s.builder.batch != []
    ensures var s' := Next(s, BuilderChunk);
            && s'.builder.Building? && s'.builder.batch == [] && s'.row.None? && s'.log == s.log
            && |After(s.log, s'.builder.through)| < |After(s.log, s.builder.through)|
  {
    hide IndexOf, StateOf, UpTo, After, WriteAll;
    BuildTransaction(s, s.builder.state, s.builder.through, s.builder.batch);
    AfterBatch(s.log, s.builder.through, s.builder.batch);
  }

  lemma AloneFinishCommits(s: Session)
    requires Inv(s) && s.row.None? && s.builder.Finishing?
    ensures Next(s, BuilderFinish) ==
            s.(tables := IndexOf(RulesOf(s), s.log), builder := Idle,
               row := Some(IndexRow(s.running, NewestID(s.log), StateOf(RulesOf(s), s.log))))
  {
    hide IndexOf, StateOf, UpTo, After, WriteAll;
    FinishTransaction(s, s.builder.state, s.builder.through);
  }

  function TurnIDsOfKeys(turns: map<nat, TurnRow>, keys: set<nat>): set<string> {
    set k | k in keys && k in turns :: turns[k].turnID
  }

  lemma NothingCounted(rules: Rules, log: seq<EventRow>)
    ensures Keep(Tagged(rules, log), {}) == []
    ensures forall turns: map<nat, TurnRow> :: TurnIDsOfKeys(turns, turns.Keys - turns.Keys) == {}
  {
    KeepNone(Tagged(rules, log));
  }

  lemma CountOneMore(rules: Rules, log: seq<EventRow>, done: set<nat>, k: nat)
    requires Ascending(log) && k in IndexOf(rules, log).turns && k !in done && done <= IndexOf(rules, log).turns.Keys
    ensures var turns, rows := IndexOf(rules, log).turns, Tagged(rules, log);
            var seen := TurnIDsOfKeys(turns, done);
            && TurnIDsOfKeys(turns, done + {k}) == seen + {turns[k].turnID}
            && |Keep(rows, seen + {turns[k].turnID})| == |Keep(rows, seen)| + turns[k].eventCount
  {
    hide TurnIDs, Keep, Tagged, EventTurnsOf, CandidatesOf;
    var turns, rows := IndexOf(rules, log).turns, Tagged(rules, log);
    TurnNumbering(rules, log);
    TurnIDOfRow(rows, k);
    assert turns[k].eventCount == |Keep(rows, {turns[k].turnID})|;
    KeepCounts(rows, TurnIDsOfKeys(turns, done), turns[k].turnID);
  }

  lemma AllCounted(rules: Rules, log: seq<EventRow>, maxEventID: nat)
    requires Ascending(log)
    requires forall k :: k in IndexOf(rules, log).turns ==> IndexOf(rules, log).turns[k].lastEventID <= maxEventID
    requires maxEventID == 0 || exists k :: k in IndexOf(rules, log).turns && IndexOf(rules, log).turns[k].lastEventID == maxEventID
    ensures maxEventID == NewestID(log)
    ensures forall turns :: turns == IndexOf(rules, log).turns ==>
              |Keep(Tagged(rules, log), TurnIDsOfKeys(turns, turns.Keys - {}))| == |log|
  {
    hide TurnIDs, Keep, EventTurnsOf, CandidatesOf, TurnsOf;
    var turns, rows := IndexOf(rules, log).turns, Tagged(rules, log);
    TaggedRising(rules, log);
    forall b | b in rows ensures b.turnID in TurnIDsOfKeys(turns, turns.Keys - {}) {
      EventHasTurn(rows, b);
    }
    KeepAll(rows, TurnIDsOfKeys(turns, turns.Keys - {}));
    NewestIsMax(rules, log, maxEventID);
  }

  lemma NewestIsMax(rules: Rules, log: seq<EventRow>, maxEventID: nat)
    requires Ascending(log)
    requires forall k :: k in IndexOf(rules, log).turns ==> IndexOf(rules, log).turns[k].lastEventID <= maxEventID
    requires maxEventID == 0 || exists k :: k in IndexOf(rules, log).turns && IndexOf(rules, log).turns[k].lastEventID == maxEventID
    ensures maxEventID == NewestID(log)
  {
    hide TurnIDs, Keep, EventTurnsOf, CandidatesOf, TurnsOf, Summary;
    var rows := Tagged(rules, log);
    TurnNumbering(rules, log);
    if log != [] {
      TaggedRising(rules, log);
      TaggedAt(rules, log, |log| - 1);
      var last := rows[|log| - 1];
      EventHasTurn(rows, last);
      TurnRowFacts(rules, log, EventTurnsOf(rows)[last.row.id]);
    }
    if maxEventID != 0 {
      var k :| k in IndexOf(rules, log).turns && IndexOf(rules, log).turns[k].lastEventID == maxEventID;
      TurnRowFacts(rules, log, k);
      NewestIsLargest(log);
      var b :| b in EventsOfTurn(rows, k) && b.row.id == maxEventID;
      KeepMembers(rows, {TurnIDs(rows)[k - 1]});
      var i :| 0 <= i < |rows| && rows[i] == b;
      TaggedAt(rules, log, i);
      assert log[i] in log;
    }
  }
}
