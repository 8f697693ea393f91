/** The turn rule: which turn each event of a session belongs to. */
module TurnRule {
  import opened Decimals
  import opened Events
  import opened IndexRules

  /** An event row carrying the turn id it was placed in (store.EventRow with TurnID set). */
  datatype TurnEvent = TurnEvent(turnID: string, row: EventRow)

  function LastTurnID(rules: Rules, log: seq<EventRow>): string {
    if log == [] then ""
    else rules.resolve(LastTurnID(rules, log[..|log| - 1]), log[|log| - 1].id, log[|log| - 1].rawTurnID)
  }

  /** Every event of the log with the turn id the rule gives it. */
  function Tagged(rules: Rules, log: seq<EventRow>): (rows: seq<TurnEvent>)
    ensures |rows| == |log|
  {
    if log == [] then [] else Tagged(rules, log[..|log| - 1]) + [TurnEvent(LastTurnID(rules, log), log[|log| - 1])]
  }

  lemma {:induction false} TaggedAt(rules: Rules, log: seq<EventRow>, i: nat)
    requires i < |log|
    ensures Tagged(rules, log)[i] == TurnEvent(LastTurnID(rules, log[..i + 1]), log[i])
  {
    if i == |log| - 1 {
      assert log[..i + 1] == log;
    } else {
      TaggedAt(rules, log[..|log| - 1], i);
      assert log[..|log| - 1][..i + 1] == log[..i + 1];
    }
  }

  lemma TaggedSnoc(rules: Rules, log: seq<EventRow>, e: EventRow)
    ensures Tagged(rules, log + [e]) == Tagged(rules, log) + [TurnEvent(LastTurnID(rules, log + [e]), e)]
    ensures LastTurnID(rules, log + [e]) == rules.resolve(LastTurnID(rules, log), e.id, e.rawTurnID)
  {
    assert (log + [e])[..|log|] == log;
  }

  lemma {:induction false} TaggedPrefix(rules: Rules, log: seq<EventRow>, n: nat)
    requires n <= |log|
    ensures Tagged(rules, log[..n]) == Tagged(rules, log)[..n]
  {
    if n == |log| {
      assert log[..n] == log;
    } else {
      TaggedPrefix(rules, log[..|log| - 1], n);
      assert log[..|log| - 1][..n] == log[..n];
    }
  }

  /** This version's rule without a running state: the nearest turn_id at or before the event, and when there
      is none yet, the id made from the session's first event. */
  lemma {:induction false} TurnRuleClosedForm(log: seq<EventRow>, i: nat, j: nat)
    requires j <= i < |log|
    requires forall k :: j < k <= i ==> log[k].rawTurnID == ""
    ensures log[j].rawTurnID != "" ==> Tagged(OwnRules, log)[i].turnID == log[j].rawTurnID
    ensures j == 0 && log[0].rawTurnID == "" ==> Tagged(OwnRules, log)[i].turnID == "t_" + Decimal(log[0].id)
  {
    TaggedAt(OwnRules, log, i);
    assert log[..i + 1][..i] == log[..i];
    if i > j {
      TurnRuleClosedForm(log, i - 1, j);
      TaggedAt(OwnRules, log, i - 1);
    }
  }

  /** The distinct turn ids of some rows, by first appearance. */
  function TurnIDs(rows: seq<TurnEvent>): seq<string> {
    if rows == [] then []
    else
      var ids := TurnIDs(rows[..|rows| - 1]);
      if rows[|rows| - 1].turnID in ids then ids else ids + [rows[|rows| - 1].turnID]
  }

  lemma TurnIDsSnoc(rows: seq<TurnEvent>, b: TurnEvent)
    ensures TurnIDs(rows + [b]) == if b.turnID in TurnIDs(rows) then TurnIDs(rows) else TurnIDs(rows) + [b.turnID]
  {
    assert (rows + [b])[..|rows|] == rows;
  }

  lemma {:induction false} TurnIDsMembers(rows: seq<TurnEvent>)
    ensures forall b :: b in rows ==> b.turnID in TurnIDs(rows)
    ensures forall id :: id in TurnIDs(rows) ==> exists b :: b in rows && b.turnID == id
  {
    if rows != [] {
      var init, last := rows[..|rows| - 1], rows[|rows| - 1];
      TurnIDsMembers(init);
      assert rows == init + [last];
      forall id | id in TurnIDs(rows) ensures exists b :: b in rows && b.turnID == id {
        if id in TurnIDs(init) {
          var b :| b in init && b.turnID == id;
          assert b in rows;
        } else {
          assert last in rows;
        }
      }
    }
  }

  lemma {:induction false} TurnIDsDistinct(rows: seq<TurnEvent>)
    ensures forall i, j :: 0 <= i < j < |TurnIDs(rows)| ==> TurnIDs(rows)[i] != TurnIDs(rows)[j]
  {
    if rows != [] {
      TurnIDsDistinct(rows[..|rows| - 1]);
    }
  }

  lemma {:induction false} TurnIDsPrefix(rows: seq<TurnEvent>, n: nat)
    requires n <= |rows|
    ensures TurnIDs(rows[..n]) <= TurnIDs(rows)
  {
    if n == |rows| {
      assert rows[..n] == rows;
    } else {
      TurnIDsPrefix(rows[..|rows| - 1], n);
      assert rows[..|rows| - 1][..n] == rows[..n];
    }
  }

  /** The rows whose turn is one of `ids`, in order. */
  function Keep(rows: seq<TurnEvent>, ids: set<string>): seq<TurnEvent> {
    if rows == [] then []
    else if rows[|rows| - 1].turnID in ids then Keep(rows[..|rows| - 1], ids) + [rows[|rows| - 1]]
    else Keep(rows[..|rows| - 1], ids)
  }

  lemma {:induction false} KeepMembers(rows: seq<TurnEvent>, ids: set<string>)
    ensures forall b :: b in Keep(rows, ids) <==> b in rows && b.turnID in ids
  {
    if rows != [] {
      KeepMembers(rows[..|rows| - 1], ids);
      assert rows == rows[..|rows| - 1] + [rows[|rows| - 1]];
    }
  }

  lemma KeepSnoc(rows: seq<TurnEvent>, b: TurnEvent, ids: set<string>)
    ensures Keep(rows + [b], ids) == if b.turnID in ids then Keep(rows, ids) + [b] else Keep(rows, ids)
  {
    assert (rows + [b])[..|rows|] == rows;
  }

  lemma {:induction false} KeepPrefix(rows: seq<TurnEvent>, n: nat, ids: set<string>)
    requires n <= |rows|
    ensures Keep(rows[..n], ids) <= Keep(rows, ids)
  {
    if n == |rows| {
      assert rows[..n] == rows;
    } else {
      KeepPrefix(rows[..|rows| - 1], n, ids);
      assert rows[..|rows| - 1][..n] == rows[..n];
    }
  }

  lemma {:induction false} KeepKeep(rows: seq<TurnEvent>, a: set<string>, b: set<string>)
    ensures Keep(Keep(rows, a), b) == Keep(rows, a * b)
  {
    if rows != [] {
      var init, last := rows[..|rows| - 1], rows[|rows| - 1];
      KeepKeep(init, a, b);
      if last.turnID in a {
        KeepSnoc(Keep(init, a), last, b);
      }
    }
  }

  lemma {:induction false} KeepAll(rows: seq<TurnEvent>, ids: set<string>)
    requires forall b :: b in rows ==> b.turnID in ids
    ensures Keep(rows, ids) == rows
  {
    if rows != [] {
      assert rows == rows[..|rows| - 1] + [rows[|rows| - 1]];
      KeepAll(rows[..|rows| - 1], ids);
    }
  }

  /** Rows with rising positive ids, whatever turns they are in. */
  ghost predicate Rising(rows: seq<TurnEvent>) {
    && (forall i :: 0 <= i < |rows| ==> 0 < rows[i].row.id)
    && (forall i, j :: 0 <= i < j < |rows| ==> rows[i].row.id < rows[j].row.id)
  }

  lemma TaggedRising(rules: Rules, log: seq<EventRow>)
    requires Ascending(log)
    ensures Rising(Tagged(rules, log))
  {
    forall i | 0 <= i < |log| ensures Tagged(rules, log)[i].row == log[i] {
      TaggedAt(rules, log, i);
    }
  }

  lemma {:induction false} KeepRising(rows: seq<TurnEvent>, ids: set<string>)
    requires Rising(rows)
    ensures Rising(Keep(rows, ids))
  {
    if rows != [] {
      var init, last := rows[..|rows| - 1], rows[|rows| - 1];
      KeepRising(init, ids);
      KeepMembers(init, ids);
      OlderRows(rows);
      RisingSnoc(Keep(init, ids), last);
    }
  }

  /** Every row is older than the last. */
  lemma OlderRows(rows: seq<TurnEvent>)
    requires Rising(rows) && rows != []
    ensures rows[|rows| - 1].row.id > 0
    ensures forall b :: b in rows[..|rows| - 1] ==> b.row.id < rows[|rows| - 1].row.id
  {
    var init := rows[..|rows| - 1];
    forall b | b in init ensures b.row.id < rows[|rows| - 1].row.id {
      var i :| 0 <= i < |init| && init[i] == b;
      assert rows[i] == b;
    }
  }

  lemma RisingSnoc(rows: seq<TurnEvent>, b: TurnEvent)
    requires Rising(rows) && b.row.id > 0 && forall c :: c in rows ==> c.row.id < b.row.id
    ensures Rising(rows + [b])
  {
    assert forall i :: 0 <= i < |rows| ==> rows[i] in rows;
  }

  /** The ids of a turn list that are in `ids`, in order. */
  function Only(list: seq<string>, ids: set<string>): seq<string> {
    if list == [] then []
    else if list[|list| - 1] in ids then Only(list[..|list| - 1], ids) + [list[|list| - 1]]
    else Only(list[..|list| - 1], ids)
  }

  /** Taking a page of turns keeps them in the order the whole session has them in. */
  lemma {:induction false} TurnIDsOfKeep(rows: seq<TurnEvent>, ids: set<string>)
    ensures TurnIDs(Keep(rows, ids)) == Only(TurnIDs(rows), ids)
  {
    if rows != [] {
      var init, last := rows[..|rows| - 1], rows[|rows| - 1];
      TurnIDsOfKeep(init, ids);
      TurnIDsMembers(init);
      TurnIDsMembers(Keep(init, ids));
      KeepMembers(init, ids);
      if last.turnID in ids {
        TurnIDsSnoc(Keep(init, ids), last);
        if last.turnID in TurnIDs(init) {
          var b :| b in init && b.turnID == last.turnID;
          assert b in Keep(init, ids);
        } else {
          assert (TurnIDs(init) + [last.turnID])[..|TurnIDs(init)|] == TurnIDs(init);
        }
      } else if last.turnID !in TurnIDs(init) {
        assert (TurnIDs(init) + [last.turnID])[..|TurnIDs(init)|] == TurnIDs(init);
      }
    }
  }
}
