/** The turn index of one session: the tables, the step that writes one event into them, and the
    closed form the tables have when every event has been written. */
module TurnIndex {
  import opened Options
  import opened Events
  import opened IndexRules
  import opened TurnRule

  /** One turns row: the facts the index keeps. What the builder stored beside them is in Cache. */
  datatype TurnRow = TurnRow(turnID: string, firstEventID: nat, lastEventID: nat, eventCount: nat, hasUserMessage: bool)

  /** One dedup_candidates row. */
  datatype Candidate = Candidate(eventID: nat, turnSeq: nat, key: string, source: Source)

  /** event_turns, turns and dedup_candidates of one session, the last one in event_id order. */
  datatype Tables = Tables(eventTurns: map<nat, nat>, turns: map<nat, TurnRow>, candidates: seq<Candidate>)

  const EmptyTables := Tables(map[], map[], [])

  /** sessionTurnState. */
  datatype TurnState = TurnState(lastTurnID: string, nextTurnSeq: nat)

  const FreshState := TurnState("", 1)

  // ---------------------------------------------------------------- the closed form

  /** A turns row recomputed from the turn's events. */
  function Summary(events: seq<TurnEvent>): TurnRow
    requires events != []
  {
    TurnRow(events[0].turnID, events[0].row.id, events[|events| - 1].row.id, |events|,
            exists i :: 0 <= i < |events| && events[i].row.typ == UserMessage)
  }

  lemma KeepOneNonEmpty(rows: seq<TurnEvent>, id: string)
    requires id in TurnIDs(rows)
    ensures Keep(rows, {id}) != []
    ensures forall b :: b in Keep(rows, {id}) ==> b.turnID == id
  {
    TurnIDsMembers(rows);
    KeepMembers(rows, {id});
    var b :| b in rows && b.turnID == id;
    assert b in Keep(rows, {id});
  }

  /** The events of turn number `seq_`, first turn 1. */
  function EventsOfTurn(rows: seq<TurnEvent>, k: nat): (events: seq<TurnEvent>)
    requires 1 <= k <= |TurnIDs(rows)|
    ensures events != []
  {
    KeepOneNonEmpty(rows, TurnIDs(rows)[k - 1]);
    Keep(rows, {TurnIDs(rows)[k - 1]})
  }

  /** Turns rows by number: one for each distinct turn id, numbered by first appearance. */
  function TurnsOf(rows: seq<TurnEvent>): map<nat, TurnRow> {
    map k: nat | 1 <= k <= |TurnIDs(rows)| :: Summary(EventsOfTurn(rows, k))
  }

  /** The number of a turn id, 0 when it is not in the list. */
  function SeqOf(ids: seq<string>, id: string): (k: nat)
    ensures k <= |ids|
    ensures k == 0 <==> id !in ids
    ensures k > 0 ==> ids[k - 1] == id
  {
    if ids == [] then 0
    else
      assert ids == ids[..|ids| - 1] + [ids[|ids| - 1]];
      var k := SeqOf(ids[..|ids| - 1], id);
      if k > 0 then k else if ids[|ids| - 1] == id then |ids| else 0
  }

  function SeqOfLast(rows: seq<TurnEvent>): nat
    requires rows != []
  {
    SeqOf(TurnIDs(rows), rows[|rows| - 1].turnID)
  }

  function EventTurnsOf(rows: seq<TurnEvent>): map<nat, nat> {
    if rows == [] then map[]
    else EventTurnsOf(rows[..|rows| - 1])[rows[|rows| - 1].row.id := SeqOfLast(rows)]
  }

  function CandidatesOf(rules: Rules, rows: seq<TurnEvent>): seq<Candidate> {
    if rows == [] then []
    else
      var last := rows[|rows| - 1].row;
      match rules.candidate(last)
      case None => CandidatesOf(rules, rows[..|rows| - 1])
      case Some(f) => CandidatesOf(rules, rows[..|rows| - 1]) + [Candidate(last.id, SeqOfLast(rows), f.key, f.source)]
  }

  /** The whole index recomputed from the events. */
  function IndexOf(rules: Rules, log: seq<EventRow>): Tables {
    var rows := Tagged(rules, log);
    Tables(EventTurnsOf(rows), TurnsOf(rows), CandidatesOf(rules, rows))
  }

  function StateOf(rules: Rules, log: seq<EventRow>): TurnState {
    TurnState(LastTurnID(rules, log), |TurnIDs(Tagged(rules, log))| + 1)
  }

  // ---------------------------------------------------------------- the step

  /** SELECT turn_seq FROM turns WHERE turn_id=?. */
  ghost function FindTurn(turns: map<nat, TurnRow>, turnID: string): Option<nat> {
    if exists k :: k in turns && turns[k].turnID == turnID
    then var k :| k in turns && turns[k].turnID == turnID; Some(k)
    else None
  }

  /** Insertion into a table ordered by its primary key. */
  function InsertCandidate(list: seq<Candidate>, c: Candidate): seq<Candidate> {
    if list == [] || list[|list| - 1].eventID < c.eventID then list + [c]
    else InsertCandidate(list[..|list| - 1], c) + [list[|list| - 1]]
  }

  /** What a transaction did: its new tables, or a key violation that rolls it back. */
  datatype Written = Aborted | Written(tables: Tables, state: TurnState)

  /** writeEventTurn: assign the event to its turn and write the three tables. `withData` is false for
      a row whose body the caller did not read. */
  ghost function WriteEventTurn(rules: Rules, t: Tables, st: TurnState, row: EventRow, withData: bool): Written {
    var turnID := rules.resolve(st.lastTurnID, row.id, row.rawTurnID);
    var isPrompt := row.typ == UserMessage;
    match FindTurn(t.turns, turnID)
    case None =>
      if st.nextTurnSeq in t.turns then Aborted
      else
        var turns := t.turns[st.nextTurnSeq := TurnRow(turnID, row.id, row.id, 1, isPrompt)];
        WriteEventRows(rules, t.(turns := turns), TurnState(turnID, st.nextTurnSeq + 1), row, st.nextTurnSeq, withData)
    case Some(k) =>
      var was := t.turns[k];
      var turns := t.turns[k := was.(lastEventID := row.id, eventCount := was.eventCount + 1,
                                      hasUserMessage := was.hasUserMessage || isPrompt)];
      WriteEventRows(rules, t.(turns := turns), TurnState(turnID, st.nextTurnSeq), row, k, withData)
  }

  /** The inserts into event_turns and dedup_candidates that follow once the turn is known. */
  ghost function WriteEventRows(rules: Rules, t: Tables, st: TurnState, row: EventRow, turnSeq: nat, withData: bool): Written {
    if row.id in t.eventTurns then Aborted
    else
      var t1 := t.(eventTurns := t.eventTurns[row.id := turnSeq]);
      if !withData || rules.candidate(row).None? then Written(t1, st)
      else if exists c :: c in t.candidates && c.eventID == row.id then Aborted
      else
        var f := rules.candidate(row).value;
        Written(t1.(candidates := InsertCandidate(t.candidates, Candidate(row.id, turnSeq, f.key, f.source))), st)
  }

  /** Several events in one transaction. */
  ghost function WriteAll(rules: Rules, t: Tables, st: TurnState, batch: seq<EventRow>): Written {
    if batch == [] then Written(t, st)
    else
      match WriteAll(rules, t, st, batch[..|batch| - 1])
      case Aborted => Aborted
      case Written(t1, st1) =>
        WriteEventTurn(rules, t1, st1, batch[|batch| - 1], CandidateType(batch[|batch| - 1].typ))
  }

  // ---------------------------------------------------------------- the step keeps the closed form

  lemma {:induction false} SeqOfAppend(ids: seq<string>, id: string, more: string)
    requires id in ids
    ensures SeqOf(ids + [more], id) == SeqOf(ids, id)
  {
    assert (ids + [more])[..|ids|] == ids;
  }

  lemma SeqOfUnique(ids: seq<string>, k: nat)
    requires k < |ids|
    requires forall i, j :: 0 <= i < j < |ids| ==> ids[i] != ids[j]
    ensures SeqOf(ids, ids[k]) == k + 1
  {
    var at := SeqOf(ids, ids[k]);
    assert ids[k] in ids;
    assert ids[at - 1] == ids[k];
  }

  lemma SummarySnoc(events: seq<TurnEvent>, b: TurnEvent)
    requires events != []
    ensures Summary(events + [b]) ==
            var was := Summary(events);
            was.(lastEventID := b.row.id, eventCount := was.eventCount + 1,
                 hasUserMessage := was.hasUserMessage || b.row.typ == UserMessage)
  {
    var all := events + [b];
    if Summary(events).hasUserMessage {
      var i :| 0 <= i < |events| && events[i].row.typ == UserMessage;
      assert all[i].row.typ == UserMessage;
    }
    assert all[|events|] == b;
  }

  lemma TurnIDOfRow(rows: seq<TurnEvent>, k: nat)
    requires 1 <= k <= |TurnIDs(rows)|
    ensures k in TurnsOf(rows) && TurnsOf(rows)[k].turnID == TurnIDs(rows)[k - 1]
  {
    var events := EventsOfTurn(rows, k);
    KeepOneNonEmpty(rows, TurnIDs(rows)[k - 1]);
    assert events[0] in events;
  }

  lemma FindTurnUnique(turns: map<nat, TurnRow>, id: string, at: nat)
    requires at in turns && turns[at].turnID == id
    requires forall k :: k in turns && turns[k].turnID == id ==> k == at
    ensures FindTurn(turns, id) == Some(at)
  {
  }

  lemma FindTurnOf(rows: seq<TurnEvent>, id: string)
    ensures FindTurn(TurnsOf(rows), id) ==
            if id in TurnIDs(rows) then Some(SeqOf(TurnIDs(rows), id)) else None
  {
    hide TurnIDs, Keep, Summary, EventsOfTurn;
    var ids, turns := TurnIDs(rows), TurnsOf(rows);
    TurnIDsDistinct(rows);
    forall k | k in turns ensures 1 <= k <= |ids| && turns[k].turnID == ids[k - 1] {
      TurnIDOfRow(rows, k);
    }
    if id in ids {
      var at := SeqOf(ids, id);
      TurnIDOfRow(rows, at);
      forall k | k in turns && turns[k].turnID == id ensures k == at {
        assert ids[k - 1] == ids[at - 1];
      }
      FindTurnUnique(turns, id, at);
    }
  }

  /** Adding an event to the rows leaves every turn but its own as it was. */
  lemma EventsOfTurnSnoc(rows: seq<TurnEvent>, b: TurnEvent, k: nat)
    requires 1 <= k <= |TurnIDs(rows)|
    ensures TurnIDs(rows) <= TurnIDs(rows + [b])
    ensures EventsOfTurn(rows + [b], k) ==
            if TurnIDs(rows)[k - 1] == b.turnID then EventsOfTurn(rows, k) + [b] else EventsOfTurn(rows, k)
  {
    TurnIDsSnoc(rows, b);
    KeepSnoc(rows, b, {TurnIDs(rows)[k - 1]});
  }

  lemma {:induction false} KeepAbsent(rows: seq<TurnEvent>, id: string)
    requires id !in TurnIDs(rows)
    ensures Keep(rows, {id}) == []
  {
    if rows != [] {
      KeepAbsent(rows[..|rows| - 1], id);
      TurnIDsSnoc(rows[..|rows| - 1], rows[|rows| - 1]);
    }
  }

  lemma NewTurn(rows: seq<TurnEvent>, b: TurnEvent)
    requires b.turnID !in TurnIDs(rows)
    ensures TurnIDs(rows + [b]) == TurnIDs(rows) + [b.turnID]
    ensures EventsOfTurn(rows + [b], |TurnIDs(rows)| + 1) == [b]
  {
    TurnIDsSnoc(rows, b);
    KeepSnoc(rows, b, {b.turnID});
    KeepAbsent(rows, b.turnID);
  }

  lemma SummaryOne(b: TurnEvent)
    ensures Summary([b]) == TurnRow(b.turnID, b.row.id, b.row.id, 1, b.row.typ == UserMessage)
  {
    assert [b][0].row.typ == UserMessage <==> Summary([b]).hasUserMessage;
  }

  lemma TurnsOfNewTurn(rows: seq<TurnEvent>, b: TurnEvent)
    requires b.turnID !in TurnIDs(rows)
    ensures TurnsOf(rows + [b]) == TurnsOf(rows)[|TurnIDs(rows)| + 1 := Summary([b])]
  {
    hide TurnIDs, Keep, Summary, EventsOfTurn;
    NewTurn(rows, b);
    var ids, ids' := TurnIDs(rows), TurnIDs(rows + [b]);
    forall k: nat | 1 <= k <= |ids| ensures EventsOfTurn(rows + [b], k) == EventsOfTurn(rows, k) {
      EventsOfTurnSnoc(rows, b, k);
      assert ids[k - 1] in ids;
    }
    assert |ids'| == |ids| + 1;
  }

  lemma TurnsOfSameTurn(rows: seq<TurnEvent>, b: TurnEvent)
    requires b.turnID in TurnIDs(rows)
    ensures TurnIDs(rows + [b]) == TurnIDs(rows)
    ensures var k := SeqOf(TurnIDs(rows), b.turnID);
            TurnsOf(rows + [b]) == TurnsOf(rows)[k := Summary(EventsOfTurn(rows, k) + [b])]
  {
    hide TurnIDs, Keep, Summary, EventsOfTurn;
    TurnIDsSnoc(rows, b);
    TurnIDsDistinct(rows);
    var at, now := SeqOf(TurnIDs(rows), b.turnID), TurnsOf(rows + [b]);
    forall k: nat | 1 <= k <= |TurnIDs(rows)|
      ensures now[k] == if k == at then Summary(EventsOfTurn(rows, k) + [b]) else TurnsOf(rows)[k]
    {
      EventsOfTurnSnoc(rows, b, k);
      if k != at {
        SeqOfUnique(TurnIDs(rows), k - 1);
      }
    }
  }

  lemma {:induction false} EventTurnsKeys(rows: seq<TurnEvent>)
    ensures forall id :: id in EventTurnsOf(rows) <==> exists b :: b in rows && b.row.id == id
  {
    if rows != [] {
      var init, last := rows[..|rows| - 1], rows[|rows| - 1];
      assert rows == init + [last];
      EventTurnsKeys(init);
      assert last in rows;
      forall id | id in EventTurnsOf(init) ensures exists b :: b in rows && b.row.id == id {
        var b :| b in init && b.row.id == id;
        assert b in rows;
      }
    }
  }

  lemma {:induction false} CandidatesBelow(rules: Rules, rows: seq<TurnEvent>)
    ensures forall c :: c in CandidatesOf(rules, rows) ==> exists b :: b in rows && b.row.id == c.eventID
  {
    if rows != [] {
      var init, last := rows[..|rows| - 1], rows[|rows| - 1];
      assert rows == init + [last];
      CandidatesBelow(rules, init);
      assert last in rows;
      forall c | c in CandidatesOf(rules, init) ensures exists b :: b in rows && b.row.id == c.eventID {
        var b :| b in init && b.row.id == c.eventID;
        assert b in rows;
      }
    }
  }

  lemma EventTurnsSnoc(rows: seq<TurnEvent>, b: TurnEvent)
    ensures EventTurnsOf(rows + [b]) == EventTurnsOf(rows)[b.row.id := SeqOf(TurnIDs(rows + [b]), b.turnID)]
  {
    assert (rows + [b])[..|rows|] == rows;
  }

  lemma CandidatesOfSnoc(rules: Rules, rows: seq<TurnEvent>, b: TurnEvent)
    ensures CandidatesOf(rules, rows + [b]) ==
            match rules.candidate(b.row)
            case None => CandidatesOf(rules, rows)
            case Some(f) => CandidatesOf(rules, rows) + [Candidate(b.row.id, SeqOf(TurnIDs(rows + [b]), b.turnID), f.key, f.source)]
  {
    assert (rows + [b])[..|rows|] == rows;
  }

  lemma WriteRowsExtends(rules: Rules, rows: seq<TurnEvent>, b: TurnEvent, turns: map<nat, TurnRow>, st: TurnState, withData: bool)
    requires forall x :: x in rows ==> x.row.id < b.row.id
    requires withData || !CandidateType(b.row.typ)
    ensures WriteEventRows(rules, Tables(EventTurnsOf(rows), turns, CandidatesOf(rules, rows)), st, b.row, SeqOfLast(rows + [b]), withData)
            == Written(Tables(EventTurnsOf(rows + [b]), turns, CandidatesOf(rules, rows + [b])), st)
  {
    hide CandidatesOf, EventTurnsOf, TurnIDs, SeqOf, InsertCandidate;
    EventTurnsKeys(rows);
    InsertAtEnd(rules, CandidatesOf(rules, rows), rows, b);
    CandidatesOfSnoc(rules, rows, b);
    EventTurnsSnoc(rows, b);
  }

  lemma WriteIntoNewTurn(rules: Rules, rows: seq<TurnEvent>, st: TurnState, b: TurnEvent, withData: bool)
    requires forall x :: x in rows ==> x.row.id < b.row.id
    requires withData || !CandidateType(b.row.typ)
    requires st.nextTurnSeq == |TurnIDs(rows)| + 1
    requires b.turnID == rules.resolve(st.lastTurnID, b.row.id, b.row.rawTurnID) && b.turnID !in TurnIDs(rows)
    ensures WriteEventTurn(rules, Tables(EventTurnsOf(rows), TurnsOf(rows), CandidatesOf(rules, rows)), st, b.row, withData)
            == Written(Tables(EventTurnsOf(rows + [b]), TurnsOf(rows + [b]), CandidatesOf(rules, rows + [b])),
                       TurnState(b.turnID, |TurnIDs(rows + [b])| + 1))
  {
    hide TurnIDs, Keep, EventTurnsOf, CandidatesOf, EventsOfTurn, Summary, SeqOf, FindTurn, WriteEventRows;
    FindTurnOf(rows, b.turnID);
    TurnsOfNewTurn(rows, b);
    SummaryOne(b);
    NewTurn(rows, b);
    SeqOfLastNew(rows, b);
    WriteRowsExtends(rules, rows, b, TurnsOf(rows + [b]), TurnState(b.turnID, st.nextTurnSeq + 1), withData);
  }

  lemma WriteIntoOldTurn(rules: Rules, rows: seq<TurnEvent>, st: TurnState, b: TurnEvent, withData: bool)
    requires forall x :: x in rows ==> x.row.id < b.row.id
    requires withData || !CandidateType(b.row.typ)
    requires st.nextTurnSeq == |TurnIDs(rows)| + 1
    requires b.turnID == rules.resolve(st.lastTurnID, b.row.id, b.row.rawTurnID) && b.turnID in TurnIDs(rows)
    ensures WriteEventTurn(rules, Tables(EventTurnsOf(rows), TurnsOf(rows), CandidatesOf(rules, rows)), st, b.row, withData)
            == Written(Tables(EventTurnsOf(rows + [b]), TurnsOf(rows + [b]), CandidatesOf(rules, rows + [b])),
                       TurnState(b.turnID, |TurnIDs(rows + [b])| + 1))
  {
    hide TurnIDs, Keep, EventTurnsOf, CandidatesOf, EventsOfTurn, Summary, SeqOf, FindTurn, WriteEventRows;
    var k := SeqOf(TurnIDs(rows), b.turnID);
    FindTurnOf(rows, b.turnID);
    TurnsOfSameTurn(rows, b);
    SummarySnoc(EventsOfTurn(rows, k), b);
    SeqOfLastSame(rows, b);
    WriteRowsExtends(rules, rows, b, TurnsOf(rows + [b]), TurnState(b.turnID, st.nextTurnSeq), withData);
  }

  /** One incremental write turns the index of a log into the index of the log with the event added,
      and never hits a key. */
  lemma WriteExtends(rules: Rules, log: seq<EventRow>, e: EventRow, withData: bool)
    requires Ascending(log + [e])
    requires withData || !CandidateType(e.typ)
    ensures WriteEventTurn(rules, IndexOf(rules, log), StateOf(rules, log), e, withData) ==
            Written(IndexOf(rules, log + [e]), StateOf(rules, log + [e]))
  {
    var b := TurnEvent(LastTurnID(rules, log + [e]), e);
    TaggedSnoc(rules, log, e);
    IdsBelow(rules, log, e);
    if b.turnID in TurnIDs(Tagged(rules, log)) {
      WriteIntoOldTurn(rules, Tagged(rules, log), StateOf(rules, log), b, withData);
    } else {
      WriteIntoNewTurn(rules, Tagged(rules, log), StateOf(rules, log), b, withData);
    }
  }

  lemma IdsBelow(rules: Rules, log: seq<EventRow>, e: EventRow)
    requires Ascending(log + [e])
    ensures forall b :: b in Tagged(rules, log) ==> 0 < b.row.id < e.id
  {
    var all := log + [e];
    forall b | b in Tagged(rules, log) ensures 0 < b.row.id < e.id {
      var i :| 0 <= i < |log| && Tagged(rules, log)[i] == b;
      TaggedAt(rules, log, i);
      assert all[i] == log[i] && all[|log|] == e;
    }
  }

  lemma SeqOfLastSame(rows: seq<TurnEvent>, b: TurnEvent)
    requires b.turnID in TurnIDs(rows)
    ensures SeqOfLast(rows + [b]) == SeqOf(TurnIDs(rows), b.turnID)
  {
    TurnIDsSnoc(rows, b);
  }

  lemma SeqOfLastNew(rows: seq<TurnEvent>, b: TurnEvent)
    requires b.turnID !in TurnIDs(rows)
    ensures SeqOfLast(rows + [b]) == |TurnIDs(rows)| + 1
  {
    TurnIDsSnoc(rows, b);
    assert (TurnIDs(rows) + [b.turnID])[..|TurnIDs(rows)|] == TurnIDs(rows);
  }

  lemma InsertAtEnd(rules: Rules, list: seq<Candidate>, rows: seq<TurnEvent>, b: TurnEvent)
    requires list == CandidatesOf(rules, rows)
    requires forall x :: x in rows ==> x.row.id < b.row.id
    ensures forall c: Candidate :: c.eventID == b.row.id ==> InsertCandidate(list, c) == list + [c]
    ensures forall c :: c in list ==> c.eventID != b.row.id
  {
    CandidatesBelow(rules, rows);
    if list != [] {
      assert list[|list| - 1] in list;
    }
  }

  /** A batch read back from the events table and written in one transaction. */
  lemma {:induction false} WriteAllExtends(rules: Rules, log: seq<EventRow>, batch: seq<EventRow>)
    requires Ascending(log + batch)
    ensures WriteAll(rules, IndexOf(rules, log), StateOf(rules, log), batch) ==
            Written(IndexOf(rules, log + batch), StateOf(rules, log + batch))
  {
    if batch == [] {
      assert log + batch == log;
    } else {
      var init, last := batch[..|batch| - 1], batch[|batch| - 1];
      assert log + batch == (log + init) + [last];
      AscendingPrefix(log + batch, |log + init|);
      assert (log + batch)[..|log + init|] == log + init;
      WriteAllExtends(rules, log, init);
      WriteExtends(rules, log + init, last, CandidateType(last.typ));
    }
  }

  lemma AscendingPrefix(log: seq<EventRow>, n: nat)
    requires Ascending(log) && n <= |log|
    ensures Ascending(log[..n])
  {
  }
}
