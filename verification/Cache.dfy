/** Stored turns as a cache over the turn index: any number of materializers, each reading the turn row,
    the session's pairing and the turn's events and then replacing the stored rows, as four separate
    steps that interleave with ingest, with the index build, with crashes and with each other. */
module Cache {
  import opened Options
  import opened Events
  import opened TurnRule
  import opened IndexRules
  import opened TurnIndex
  import opened IndexFacts
  import opened IndexProtocol
  import opened Dedup

  /** The builder: what a turn's events and the session's pairs become under a version of the rules. */
  type Build<B> = (int, seq<TurnEvent>, Pairs) -> B

  /** The builder's columns of a turns row, with the turn's entries. */
  datatype Stored<B> = Stored(version: int, through: nat, fingerprint: string, content: B)

  /** How far a materializer has read. */
  datatype Work =
    | Started
    | HasTurn(turnSeq: nat, turnID: string)
    | HasPairing(turnSeq: nat, turnID: string, candidates: seq<Candidate>)
    | HasEvents(turnSeq: nat, candidates: seq<Candidate>, events: seq<TurnEvent>)

  datatype Server<B> = Server(session: Session, version: int, stored: map<nat, Stored<B>>, working: map<nat, Work>)

  datatype Action =
    | IndexStep(step: Step)
    | Start(worker: nat)
    | ReadTurn(worker: nat, turnSeq: nat)
    | ReadPairing(worker: nat)
    | ReadEvents(worker: nat)
    | Replace(worker: nat)
    | Fail(worker: nat)
    | RestartServer(indexVersion: int, version: int)

  // ---------------------------------------------------------------- the steps

  /** TurnEvents: event_turns JOIN events WHERE turn_seq=? ORDER BY event_id. */
  function SelectTurnEvents(t: Tables, log: seq<EventRow>, turnSeq: nat, turnID: string): seq<TurnEvent> {
    if log == [] then []
    else
      var last := log[|log| - 1];
      if last.id in t.eventTurns && t.eventTurns[last.id] == turnSeq
      then SelectTurnEvents(t, log[..|log| - 1], turnSeq, turnID) + [TurnEvent(turnID, last)]
      else SelectTurnEvents(t, log[..|log| - 1], turnSeq, turnID)
  }

  ghost function Act<B>(build: Build<B>, s: Server<B>, action: Action): Server<B> {
    match action
    case IndexStep(step) =>
      if step.Restart? then s
      else
        var session := Next(s.session, step);
        // deletePartialTurnIndex clears turns and turn_entries too
        if step.BuilderDelete? && s.session.builder.NotCurrent? then s.(session := session, stored := map[])
        else s.(session := session)
    case Start(w) =>
      if Current(s.session) then s.(working := s.working[w := Started]) else s
    case ReadTurn(w, k) =>
      if w in s.working && s.working[w].Started? && k in s.session.tables.turns
      then s.(working := s.working[w := HasTurn(k, s.session.tables.turns[k].turnID)]) else s
    case ReadPairing(w) =>
      if w in s.working && s.working[w].HasTurn?
      then s.(working := s.working[w := HasPairing(s.working[w].turnSeq, s.working[w].turnID, s.session.tables.candidates)])
      else s
    case ReadEvents(w) =>
      if w in s.working && s.working[w].HasPairing?
      then
        var work := s.working[w];
        var events := SelectTurnEvents(s.session.tables, s.session.log, work.turnSeq, work.turnID);
        if events == [] then s.(working := s.working - {w})
        else s.(working := s.working[w := HasEvents(work.turnSeq, work.candidates, events)])
      else s
    case Replace(w) =>
      if w in s.working && s.working[w].HasEvents? && s.working[w].events != []
      then
        var work := s.working[w];
        if work.turnSeq !in s.session.tables.turns then s.(working := s.working - {w})
        else s.(working := s.working - {w}, stored := s.stored[work.turnSeq := Materialized(build, s.version, work)])
      else s
    case Fail(w) => s.(working := s.working - {w})
    case RestartServer(indexVersion, version) =>
      s.(session := Next(s.session, Restart(indexVersion)), version := version, working := map[])
  }

  /** materializeStoredTurn: what is stored for the events and the pairing that were read. */
  function Materialized<B>(build: Build<B>, version: int, work: Work): Stored<B>
    requires work.HasEvents? && work.events != []
  {
    Stored(version, work.events[|work.events| - 1].row.id, Fingerprint(work.candidates, work.turnSeq),
           build(version, work.events, PairsOf(work.candidates)))
  }

  ghost function RunServer<B>(build: Build<B>, s: Server<B>, actions: seq<Action>): Server<B> {
    if actions == [] then s else Act(build, RunServer(build, s, actions[..|actions| - 1]), actions[|actions| - 1])
  }

  /** StoredTurn.NeedsMaterializing. A turn nothing was stored for has version 0 and through-id 0. */
  predicate NeedsMaterializing<B>(s: Server<B>, turnSeq: nat, lastEventID: nat, fingerprint: string) {
    || turnSeq !in s.stored
    || s.stored[turnSeq].version != s.version
    || s.stored[turnSeq].through < lastEventID
    || s.stored[turnSeq].fingerprint != fingerprint
  }

  predicate Stale<B>(s: Server<B>, turnSeq: nat)
    requires turnSeq in s.session.tables.turns
  {
    NeedsMaterializing(s, turnSeq, s.session.tables.turns[turnSeq].lastEventID,
                       Fingerprint(s.session.tables.candidates, turnSeq))
  }

  // ---------------------------------------------------------------- the invariant

  /** The candidates and the events of a turn as they were when the log held its first n events. */
  function CandidatesAt(rules: Rules, log: seq<EventRow>, n: nat): seq<Candidate>
    requires n <= |log|
  {
    CandidatesOf(rules, Tagged(rules, log[..n]))
  }

  predicate HadTurn(rules: Rules, log: seq<EventRow>, n: nat, k: nat)
    requires n <= |log|
  {
    1 <= k <= |TurnIDs(Tagged(rules, log[..n]))|
  }

  function TurnIDAt(rules: Rules, log: seq<EventRow>, n: nat, k: nat): string
    requires n <= |log| && HadTurn(rules, log, n, k)
  {
    TurnIDs(Tagged(rules, log[..n]))[k - 1]
  }

  function EventsAt(rules: Rules, log: seq<EventRow>, n: nat, k: nat): seq<TurnEvent>
    requires n <= |log| && HadTurn(rules, log, n, k)
  {
    EventsOfTurn(Tagged(rules, log[..n]), k)
  }

  ghost predicate TablesArePrefix(s: Session) {
    exists n: nat :: n <= |s.log| && s.tables == IndexOf(RulesOf(s), s.log[..n])
  }

  ghost predicate ReadBefore(rules: Rules, log: seq<EventRow>, candidates: seq<Candidate>) {
    exists n: nat :: n <= |log| && candidates == CandidatesAt(rules, log, n)
  }

  ghost predicate EventsReadBefore(rules: Rules, log: seq<EventRow>, k: nat, events: seq<TurnEvent>) {
    exists n: nat :: n <= |log| && HadTurn(rules, log, n, k) && events == EventsAt(rules, log, n, k)
  }

  ghost predicate GoodWork(rules: Rules, log: seq<EventRow>, work: Work) {
    match work
    case Started => true
    case HasTurn(k, id) => HadTurn(rules, log, |log|, k) && id == TurnIDAt(rules, log, |log|, k)
    case HasPairing(k, id, candidates) =>
      HadTurn(rules, log, |log|, k) && id == TurnIDAt(rules, log, |log|, k) && ReadBefore(rules, log, candidates)
    case HasEvents(k, candidates, events) => ReadBefore(rules, log, candidates) && EventsReadBefore(rules, log, k, events)
  }

  /** A stored turn is the builder's output for the events the turn had at one moment and the pairs the
      session had at another, and its fingerprint names those pairs. */
  ghost predicate BuiltFrom<B>(rules: Rules, build: Build<B>, log: seq<EventRow>, k: nat, stored: Stored<B>,
                               candidates: seq<Candidate>, events: seq<TurnEvent>) {
    && ReadBefore(rules, log, candidates) && EventsReadBefore(rules, log, k, events) && events != []
    && stored.through == events[|events| - 1].row.id
    && stored.fingerprint == Fingerprint(candidates, k)
    && stored.content == build(stored.version, events, PairsOf(candidates))
  }

  ghost predicate GoodStored<B>(rules: Rules, build: Build<B>, log: seq<EventRow>, k: nat, stored: Stored<B>) {
    exists candidates, events :: BuiltFrom(rules, build, log, k, stored, candidates, events)
  }

  /** The rules that what is stored was read under: those of the index row; while this process builds the
      index anew, its own; None when no row says. */
  function StoredRules(s: Session): Option<Rules> {
    if s.row.Some? then Some(s.rules(s.row.value.version))
    else if s.builder.Building? || s.builder.Finishing? then Some(RulesOf(s))
    else None
  }

  ghost predicate StoredUnder<B>(build: Build<B>, s: Session, k: nat, stored: Stored<B>) {
    match StoredRules(s)
    case Some(rules) => GoodStored(rules, build, s.log, k, stored)
    case None => exists v :: GoodStored(s.rules(v), build, s.log, k, stored)
  }

  ghost predicate ServerInv<B>(build: Build<B>, s: Server<B>) {
    && Inv(s.session)
    && (s.working != map[] ==> TablesArePrefix(s.session) && (s.session.row.Some? ==> Current(s.session)))
    && (forall w :: w in s.working ==> GoodWork(RulesOf(s.session), s.session.log, s.working[w]))
    && (forall k :: k in s.stored ==> StoredUnder(build, s.session, k, s.stored[k]))
  }

  ghost predicate ServerInit<B>(s: Server<B>) {
    Init(s.session) && s.stored == map[] && s.working == map[]
  }

  predicate ActionSafe<B>(s: Server<B>, action: Action) {
    action.RestartServer? ==> RestartSafe(s.session, action.indexVersion)
  }

  ghost predicate ServerRunSafe<B>(build: Build<B>, s: Server<B>, actions: seq<Action>) {
    forall n :: 0 <= n < |actions| ==> ActionSafe(RunServer(build, s, actions[..n]), actions[n])
  }

  // ---------------------------------------------------------------- reading the index

  lemma {:induction false} SelectFrom(t: Tables, log: seq<EventRow>, n: nat, k: nat, id: string)
    requires Ascending(log) && n <= |log|
    requires forall i :: 0 <= i < |log| && log[i].id in t.eventTurns && t.eventTurns[log[i].id] == k ==> i < n
    ensures SelectTurnEvents(t, log, k, id) == SelectTurnEvents(t, log[..n], k, id)
  {
    if n < |log| {
      var init := log[..|log| - 1];
      SelectFrom(t, init, n, k, id);
      assert init[..n] == log[..n];
    } else {
      assert log[..n] == log;
    }
  }

  /** Whether event_turns puts an event of the log in turn k. */
  lemma InTurnById(rules: Rules, log: seq<EventRow>, i: nat, k: nat)
    requires Ascending(log) && i < |log| && 1 <= k <= |TurnIDs(Tagged(rules, log))|
    ensures log[i].id in IndexOf(rules, log).eventTurns
    ensures IndexOf(rules, log).eventTurns[log[i].id] == k <==> Tagged(rules, log)[i].turnID == TurnIDs(Tagged(rules, log))[k - 1]
    ensures Tagged(rules, log)[i].row == log[i]
  {
    hide TurnIDs, Keep, Tagged, EventTurnsOf, TurnsOf, CandidatesOf;
    var rows := Tagged(rules, log);
    TaggedAt(rules, log, i);
    TaggedRising(rules, log);
    EventTurnsSelect(rows, k, rows[i]);
    KeepMembers(rows, {TurnIDs(rows)[k - 1]});
  }

  /** event_turns names exactly the rows of the turn. */
  ghost predicate NamesTurn(t: Tables, log: seq<EventRow>, rows: seq<TurnEvent>, k: nat, id: string) {
    |rows| == |log| && forall i :: 0 <= i < |log| ==>
      && rows[i].row == log[i] && log[i].id in t.eventTurns
      && (t.eventTurns[log[i].id] == k <==> rows[i].turnID == id)
  }

  lemma {:induction false} SelectFromKeep(t: Tables, log: seq<EventRow>, rows: seq<TurnEvent>, n: nat, k: nat, id: string)
    requires n <= |log| && NamesTurn(t, log, rows, k, id)
    ensures SelectTurnEvents(t, log[..n], k, id) == Keep(rows[..n], {id})
  {
    if n > 0 {
      SelectFromKeep(t, log, rows, n - 1, k, id);
      SelectStep(t, log, rows, n - 1, k, id);
    }
  }

  lemma SelectStep(t: Tables, log: seq<EventRow>, rows: seq<TurnEvent>, i: nat, k: nat, id: string)
    requires i < |log| == |rows| && rows[i].row == log[i] && log[i].id in t.eventTurns
    requires t.eventTurns[log[i].id] == k <==> rows[i].turnID == id
    requires SelectTurnEvents(t, log[..i], k, id) == Keep(rows[..i], {id})
    ensures SelectTurnEvents(t, log[..i + 1], k, id) == Keep(rows[..i + 1], {id})
  {
    SelectSnoc(t, log[..i], log[i], k, id);
    KeepSnoc(rows[..i], rows[i], {id});
    assert log[..i + 1] == log[..i] + [log[i]] && rows[..i + 1] == rows[..i] + [rows[i]];
  }

  lemma SelectSnoc(t: Tables, log: seq<EventRow>, e: EventRow, k: nat, id: string)
    ensures SelectTurnEvents(t, log + [e], k, id) ==
            if e.id in t.eventTurns && t.eventTurns[e.id] == k then SelectTurnEvents(t, log, k, id) + [TurnEvent(id, e)]
            else SelectTurnEvents(t, log, k, id)
  {
    assert (log + [e])[..|log|] == log;
  }

  lemma {:induction false} SelectNothing(t: Tables, log: seq<EventRow>, k: nat, id: string)
    requires forall e :: e in log && e.id in t.eventTurns ==> t.eventTurns[e.id] != k
    ensures SelectTurnEvents(t, log, k, id) == []
  {
    if log != [] {
      assert log[|log| - 1] in log;
      SelectNothing(t, log[..|log| - 1], k, id);
    }
  }

  /** An index of the first n events holds none of the later ones. */
  lemma LaterEventsNotIndexed(rules: Rules, log: seq<EventRow>, n: nat, i: nat)
    requires Ascending(log) && n <= i < |log|
    ensures log[i].id !in IndexOf(rules, log[..n]).eventTurns
  {
    hide IndexOf;
    AscendingPrefix(log, n);
    EveryEventInItsTurn(rules, log[..n]);
    forall e | e in log[..n] ensures e.id < log[i].id {
      var j :| 0 <= j < n && log[j] == e;
    }
  }

  /** Reading a turn through the tables gives the turn's events of the prefix the tables index. */
  lemma SelectIsEventsOfTurn(s: Session, n: nat, k: nat, id: string)
    requires Ascending(s.log) && n <= |s.log| && s.tables == IndexOf(RulesOf(s), s.log[..n])
    ensures HadTurn(RulesOf(s), s.log, n, k) && id == TurnIDAt(RulesOf(s), s.log, n, k) ==>
              SelectTurnEvents(s.tables, s.log, k, id) == EventsAt(RulesOf(s), s.log, n, k)
    ensures !HadTurn(RulesOf(s), s.log, n, k) ==> SelectTurnEvents(s.tables, s.log, k, id) == []
  {
    hide IndexOf, SelectTurnEvents;
    var log := s.log[..n];
    AscendingPrefix(s.log, n);
    forall i | n <= i < |s.log| ensures s.log[i].id !in s.tables.eventTurns {
      LaterEventsNotIndexed(RulesOf(s), s.log, n, i);
    }
    SelectFrom(s.tables, s.log, n, k, id);
    if !HadTurn(RulesOf(s), s.log, n, k) {
      NoSuchTurn(RulesOf(s), log, k);
      SelectNothing(s.tables, log, k, id);
    } else if id == TurnIDAt(RulesOf(s), s.log, n, k) {
      SelectWhole(RulesOf(s), s.tables, log, k, id);
    }
  }

  lemma SelectWhole(rules: Rules, t: Tables, log: seq<EventRow>, k: nat, id: string)
    requires Ascending(log) && t.eventTurns == IndexOf(rules, log).eventTurns
    requires 1 <= k <= |TurnIDs(Tagged(rules, log))| && id == TurnIDs(Tagged(rules, log))[k - 1]
    ensures SelectTurnEvents(t, log, k, id) == EventsOfTurn(Tagged(rules, log), k)
  {
    IndexNamesTurn(rules, t, log, k, id);
    SelectAll(t, log, Tagged(rules, log), k, id);
  }

  lemma IndexNamesTurn(rules: Rules, t: Tables, log: seq<EventRow>, k: nat, id: string)
    requires Ascending(log) && t.eventTurns == IndexOf(rules, log).eventTurns
    requires 1 <= k <= |TurnIDs(Tagged(rules, log))| && id == TurnIDs(Tagged(rules, log))[k - 1]
    ensures NamesTurn(t, log, Tagged(rules, log), k, id)
  {
    forall i | 0 <= i < |log|
      ensures Tagged(rules, log)[i].row == log[i] && log[i].id in t.eventTurns
      ensures t.eventTurns[log[i].id] == k <==> Tagged(rules, log)[i].turnID == id
    {
      InTurnById(rules, log, i, k);
    }
  }

  lemma SelectAll(t: Tables, log: seq<EventRow>, rows: seq<TurnEvent>, k: nat, id: string)
    requires NamesTurn(t, log, rows, k, id)
    ensures SelectTurnEvents(t, log, k, id) == Keep(rows, {id})
  {
    SelectFromKeep(t, log, rows, |log|, k, id);
    assert log[..|log|] == log;
    assert rows[..|log|] == rows;
  }

  lemma NoSuchTurn(rules: Rules, log: seq<EventRow>, k: nat)
    requires Ascending(log) && !(1 <= k <= |TurnIDs(Tagged(rules, log))|)
    ensures forall e :: e in log && e.id in IndexOf(rules, log).eventTurns ==> IndexOf(rules, log).eventTurns[e.id] != k
  {
    hide IndexOf;
    EveryEventInItsTurn(rules, log);
    TurnNumbering(rules, log);
    assert StateOf(rules, log).nextTurnSeq == |TurnIDs(Tagged(rules, log))| + 1;
    forall e | e in log && e.id in IndexOf(rules, log).eventTurns ensures IndexOf(rules, log).eventTurns[e.id] != k {
      var i :| 0 <= i < |log| && log[i] == e;
    }
  }
}
