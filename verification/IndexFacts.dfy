/** What a complete turn index says about its log: conservation of events, turn numbers and order. */
module IndexFacts {
  import opened Events
  import opened TurnRule
  import opened IndexRules
  import opened TurnIndex

  lemma SeqOfKept(rows: seq<TurnEvent>, b: TurnEvent, id: string)
    requires id in TurnIDs(rows)
    ensures SeqOf(TurnIDs(rows + [b]), id) == SeqOf(TurnIDs(rows), id)
  {
    TurnIDsSnoc(rows, b);
    if b.turnID !in TurnIDs(rows) {
      SeqOfAppend(TurnIDs(rows), id, b.turnID);
    }
  }

  lemma {:induction false} EventTurnsAtIndex(rows: seq<TurnEvent>, n: nat, i: nat)
    requires Rising(rows) && i < n <= |rows|
    ensures rows[i].row.id in EventTurnsOf(rows[..n])
    ensures EventTurnsOf(rows[..n])[rows[i].row.id] == SeqOf(TurnIDs(rows[..n]), rows[i].turnID)
  {
    hide SeqOf, TurnIDs, EventTurnsOf;
    var init, last := rows[..n - 1], rows[n - 1];
    assert rows[..n] == init + [last];
    EventTurnsSnoc(init, last);
    if i < n - 1 {
      EventTurnsAtIndex(rows, n - 1, i);
      TurnIDsMembers(init);
      assert init[i] in init;
      SeqOfKept(init, last, rows[i].turnID);
    }
  }

  lemma EventTurnsAt(rows: seq<TurnEvent>, b: TurnEvent)
    requires Rising(rows) && b in rows
    ensures b.row.id in EventTurnsOf(rows)
    ensures EventTurnsOf(rows)[b.row.id] == SeqOf(TurnIDs(rows), b.turnID)
  {
    var i :| 0 <= i < |rows| && rows[i] == b;
    EventTurnsAtIndex(rows, |rows|, i);
    assert rows[..|rows|] == rows;
  }

  lemma {:induction false} FirstEventRises(rows: seq<TurnEvent>, j: nat, k: nat)
    requires Rising(rows)
    requires 1 <= j < k <= |TurnIDs(rows)|
    ensures EventsOfTurn(rows, j)[0].row.id < EventsOfTurn(rows, k)[0].row.id
  {
    hide SeqOf, Keep;
    var init, last := rows[..|rows| - 1], rows[|rows| - 1];
    assert rows == init + [last];
    TurnIDsSnoc(init, last);
    EventsOfTurnSnoc(init, last, j);
    if k <= |TurnIDs(init)| {
      FirstEventRises(init, j, k);
      EventsOfTurnSnoc(init, last, k);
    } else {
      NewTurn(init, last);
      FirstIsRow(init, j);
      var i :| 0 <= i < |init| && init[i] == EventsOfTurn(init, j)[0];
      assert rows[i] == EventsOfTurn(init, j)[0];
    }
  }

  lemma FirstIsRow(rows: seq<TurnEvent>, k: nat)
    requires 1 <= k <= |TurnIDs(rows)|
    ensures EventsOfTurn(rows, k)[0] in rows
  {
    KeepMembers(rows, {TurnIDs(rows)[k - 1]});
    assert EventsOfTurn(rows, k)[0] in EventsOfTurn(rows, k);
  }

  /** Turn numbers are exactly 1..next-1, with distinct turn ids and rising first events. */
  lemma TurnNumbering(rules: Rules, log: seq<EventRow>)
    requires Ascending(log)
    ensures var turns, next := IndexOf(rules, log).turns, StateOf(rules, log).nextTurnSeq;
            && (forall k :: k in turns <==> 1 <= k < next)
            && (forall j, k :: j in turns && k in turns && turns[j].turnID == turns[k].turnID ==> j == k)
            && (forall j, k :: j in turns && k in turns && j < k ==> turns[j].firstEventID < turns[k].firstEventID)
  {
    hide TurnIDs, Keep, Tagged;
    var rows := Tagged(rules, log);
    var turns := TurnsOf(rows);
    TaggedRising(rules, log);
    TurnIDsDistinct(rows);
    forall k | k in turns ensures turns[k].turnID == TurnIDs(rows)[k - 1] {
      TurnIDOfRow(rows, k);
    }
    forall j, k | j in turns && k in turns && j < k ensures turns[j].firstEventID < turns[k].firstEventID {
      FirstEventRises(rows, j, k);
    }
  }

  lemma EventHasTurn(rows: seq<TurnEvent>, b: TurnEvent)
    requires Rising(rows) && b in rows
    ensures b.row.id in EventTurnsOf(rows)
    ensures EventTurnsOf(rows)[b.row.id] in TurnsOf(rows)
    ensures TurnsOf(rows)[EventTurnsOf(rows)[b.row.id]].turnID == b.turnID
  {
    hide TurnIDs, TurnsOf;
    EventTurnsAt(rows, b);
    TurnIDsMembers(rows);
    TurnIDOfRow(rows, EventTurnsOf(rows)[b.row.id]);
  }

  /** Every event of the log, and nothing else, is in event_turns, in the turn the rule names. */
  lemma EveryEventInItsTurn(rules: Rules, log: seq<EventRow>)
    requires Ascending(log)
    ensures var t := IndexOf(rules, log);
            && (forall id :: id in t.eventTurns ==> exists e :: e in log && e.id == id)
            && (forall i :: 0 <= i < |log| ==>
                  && log[i].id in t.eventTurns && t.eventTurns[log[i].id] in t.turns
                  && t.turns[t.eventTurns[log[i].id]].turnID == Tagged(rules, log)[i].turnID)
  {
    hide SeqOf, TurnIDs, TurnsOf, EventTurnsOf;
    var rows := Tagged(rules, log);
    TaggedRising(rules, log);
    EventTurnsKeys(rows);
    forall i | 0 <= i < |log|
      ensures rows[i].row == log[i]
    {
      TaggedAt(rules, log, i);
    }
    forall i | 0 <= i < |log|
      ensures log[i].id in EventTurnsOf(rows) && EventTurnsOf(rows)[log[i].id] in TurnsOf(rows)
      ensures TurnsOf(rows)[EventTurnsOf(rows)[log[i].id]].turnID == rows[i].turnID
    {
      EventHasTurn(rows, rows[i]);
    }
    forall id | id in EventTurnsOf(rows) ensures exists e :: e in log && e.id == id {
      var b :| b in rows && b.row.id == id;
      var i :| 0 <= i < |rows| && rows[i] == b;
      assert log[i] in log;
    }
  }

  /** SELECT ... FROM event_turns WHERE turn_seq=?: exactly the events the closed form puts in the turn. */
  lemma EventTurnsSelect(rows: seq<TurnEvent>, k: nat, b: TurnEvent)
    requires Rising(rows) && 1 <= k <= |TurnIDs(rows)| && b in rows
    ensures b.row.id in EventTurnsOf(rows)
    ensures b in EventsOfTurn(rows, k) <==> EventTurnsOf(rows)[b.row.id] == k
  {
    hide TurnIDs, Keep, SeqOf, EventTurnsOf;
    EventTurnsAt(rows, b);
    TurnIDsDistinct(rows);
    var id := TurnIDs(rows)[k - 1];
    KeepMembers(rows, {id});
    SeqOfUnique(TurnIDs(rows), k - 1);
    assert b in Keep(rows, {id}) <==> b.turnID == id;
    assert b.turnID == id <==> SeqOf(TurnIDs(rows), b.turnID) == k;
  }

  lemma SummaryFacts(events: seq<TurnEvent>)
    requires Rising(events) && events != []
    ensures var row := Summary(events);
            && row.eventCount == |events|
            && (forall b :: b in events ==> row.firstEventID <= b.row.id <= row.lastEventID)
            && (exists b :: b in events && b.row.id == row.firstEventID)
            && (exists b :: b in events && b.row.id == row.lastEventID)
            && (row.hasUserMessage <==> exists b :: b in events && b.row.typ == UserMessage)
  {
    assert events[0] in events && events[|events| - 1] in events;
    forall b | b in events ensures events[0].row.id <= b.row.id <= events[|events| - 1].row.id {
      var i :| 0 <= i < |events| && events[i] == b;
    }
    if exists b :: b in events && b.row.typ == UserMessage {
      var b :| b in events && b.row.typ == UserMessage;
      var i :| 0 <= i < |events| && events[i] == b;
      assert events[i].row.typ == UserMessage;
    }
  }

  /** The facts of a turns row against the events event_turns puts in that turn. */
  lemma TurnRowFacts(rules: Rules, log: seq<EventRow>, k: nat)
    requires Ascending(log) && k in IndexOf(rules, log).turns
    ensures var row, events := IndexOf(rules, log).turns[k], EventsOfTurn(Tagged(rules, log), k);
            && row.eventCount == |events|
            && (forall b :: b in events ==> row.firstEventID <= b.row.id <= row.lastEventID)
            && (exists b :: b in events && b.row.id == row.firstEventID)
            && (exists b :: b in events && b.row.id == row.lastEventID)
            && (row.hasUserMessage <==> exists b :: b in events && b.row.typ == UserMessage)
            && (forall b :: b in Tagged(rules, log) ==> b.row.id in IndexOf(rules, log).eventTurns)
            && (forall b :: b in Tagged(rules, log) ==> (b in events <==> IndexOf(rules, log).eventTurns[b.row.id] == k))
  {
    hide TurnIDs, Keep, Tagged, EventTurnsOf;
    var rows := Tagged(rules, log);
    TaggedRising(rules, log);
    KeepRising(rows, {TurnIDs(rows)[k - 1]});
    SummaryFacts(EventsOfTurn(rows, k));
    forall b | b in rows
      ensures b.row.id in EventTurnsOf(rows) && (b in EventsOfTurn(rows, k) <==> EventTurnsOf(rows)[b.row.id] == k)
    {
      EventTurnsSelect(rows, k, b);
    }
  }

  /** dedup_candidates holds exactly one row for each event the rules take as a candidate, with the event's
      turn number, key and source, in event order. */
  lemma {:induction false} CandidatesAreTheEvents(rules: Rules, rows: seq<TurnEvent>, c: Candidate)
    ensures c in CandidatesOf(rules, rows) <==>
            exists b :: b in rows && rules.candidate(b.row).Some? && c == CandidateRow(rules, rows, b)
  {
    hide TurnIDs, SeqOf;
    if rows != [] {
      hide CandidatesOf;
      var init, last := rows[..|rows| - 1], rows[|rows| - 1];
      assert rows == init + [last];
      CandidatesOfSnoc(rules, init, last);
      CandidatesAreTheEvents(rules, init, c);
      TurnIDsMembers(init);
      forall b | b in init ensures SeqOf(TurnIDs(rows), b.turnID) == SeqOf(TurnIDs(init), b.turnID) {
        SeqOfKept(init, last, b.turnID);
      }
      if b :| b in init && rules.candidate(b.row).Some? && c == CandidateRow(rules, init, b) {
        assert b in rows && c == CandidateRow(rules, rows, b);
      }
      if b :| b in rows && rules.candidate(b.row).Some? && c == CandidateRow(rules, rows, b) {
        if b in init {
          assert c == CandidateRow(rules, init, b);
        } else {
          assert b == last;
        }
      }
      assert last in rows;
    } else {
      assert CandidatesOf(rules, rows) == [];
    }
  }

  /** The candidate row of an event. */
  function CandidateRow(rules: Rules, rows: seq<TurnEvent>, b: TurnEvent): Candidate
    requires rules.candidate(b.row).Some?
  {
    var f := rules.candidate(b.row).value;
    Candidate(b.row.id, SeqOf(TurnIDs(rows), b.turnID), f.key, f.source)
  }

  /** The rows of two disjoint groups of turns, counted together. */
  lemma {:induction false} KeepCounts(rows: seq<TurnEvent>, ids: set<string>, id: string)
    requires id !in ids
    ensures |Keep(rows, ids + {id})| == |Keep(rows, ids)| + |Keep(rows, {id})|
  {
    if rows != [] {
      KeepCounts(rows[..|rows| - 1], ids, id);
    }
  }

  lemma {:induction false} KeepNone(rows: seq<TurnEvent>)
    ensures Keep(rows, {}) == []
  {
    if rows != [] {
      KeepNone(rows[..|rows| - 1]);
    }
  }
}
