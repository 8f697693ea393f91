/** Dual-emitted texts as a reader sees them: of each text, as many entries are shown as the source that
    reported it more often reported. */
module ShownCopies {
  import opened Options
  import opened Events
  import opened TurnRule
  import opened IndexRules
  import opened TurnIndex
  import opened IndexFacts
  import opened Dedup
  import opened TurnModel
  import opened Visibility

  /** A row that reports the text of a key. */
  predicate Reports(b: TurnEvent, key: string) {
    CandidateOf(b.row).Some? && CandidateOf(b.row).value.key == key
  }

  /** How many rows of one source report a key. */
  function Reported(rows: seq<TurnEvent>, key: string, source: Source): nat {
    if rows == [] then 0
    else
      var last := rows[|rows| - 1];
      Reported(rows[..|rows| - 1], key, source) +
      if Reports(last, key) && CandidateOf(last.row).value.source == source then 1 else 0
  }

  /** How many rows report a key in an entry that is shown, each on the page that `pageOf` puts it. */
  function Shown(rows: seq<TurnEvent>, pageOf: TurnEvent -> seq<TurnEvent>, pairs: Pairs, key: string): nat {
    if rows == [] then 0
    else
      var last := rows[|rows| - 1];
      Shown(rows[..|rows| - 1], pageOf, pairs, key) +
      if Reports(last, key) && !FinalEntry(pageOf(last), pairs, last).duplicate then 1 else 0
  }

  lemma {:induction false} ReportedAreCopies(rows: seq<TurnEvent>, key: string, source: Source)
    ensures Reported(rows, key, source) == |Copies(CandidatesOf(OwnRules, rows), key, source)|
  {
    if rows != [] {
      hide SeqOfLast;
      ReportedAreCopies(rows[..|rows| - 1], key, source);
    }
  }

  lemma CandidateSource(row: EventRow)
    ensures CandidateOf(row).Some? ==> row.body.Some? && CandidateOf(row).value.source == row.body.value.source
  {
  }

  lemma {:induction false} ShownAreVisible(rows: seq<TurnEvent>, pageOf: TurnEvent -> seq<TurnEvent>, pairs: Pairs, key: string)
    ensures Shown(rows, pageOf, pairs, key) == VisibleCopies(CandidatesOf(OwnRules, rows), pairs, key)
  {
    if rows != [] {
      hide SeqOfLast, FinalEntry, CandidateOf;
      var last := rows[|rows| - 1];
      ShownAreVisible(rows[..|rows| - 1], pageOf, pairs, key);
      CandidateSource(last.row);
      if CandidateOf(last.row).Some? {
        PairedCopiesKeepTheirAnnotation(pageOf(last), pairs, last);
      }
    }
  }

  /** The same for one key: exactly max(h, o) of its reports are shown. */
  lemma ShownOfKey(rows: seq<TurnEvent>, pageOf: TurnEvent -> seq<TurnEvent>, key: string)
    requires Rising(rows)
    ensures Shown(rows, pageOf, PairsOf(CandidatesOf(OwnRules, rows)), key) ==
            Max(Reported(rows, key, Harness), Reported(rows, key, OTel))
  {
    hide Shown, Reported, VisibleCopies, Copies, PairsOf, CandidatesOf;
    CandidatesRise(OwnRules, rows);
    ShownAreVisible(rows, pageOf, PairsOf(CandidatesOf(OwnRules, rows)), key);
    ReportedAreCopies(rows, key, Harness);
    ReportedAreCopies(rows, key, OTel);
    VisibleCopiesAreTheLargerCount(CandidatesOf(OwnRules, rows), key);
  }

  // ---------------------------------------------------------------- by what was said

  /** A row that says this text, as a prompt or as a reply. */
  predicate Says(b: TurnEvent, typ: EventType, text: string) {
    && b.row.typ in {UserMessage, Result} && b.row.body.Some? && b.row.body.value.typ == typ
    && b.row.body.value.result.Some? && b.row.body.value.result.value.text == text
  }

  /** How many rows of one source say it. */
  function Said(rows: seq<TurnEvent>, typ: EventType, text: string, source: Source): nat {
    if rows == [] then 0
    else
      var last := rows[|rows| - 1];
      Said(rows[..|rows| - 1], typ, text, source) + if Says(last, typ, text) && last.row.body.value.source == source then 1 else 0
  }

  /** How many rows say it in an entry that is shown. */
  function SaidAndShown(rows: seq<TurnEvent>, pageOf: TurnEvent -> seq<TurnEvent>, pairs: Pairs, typ: EventType, text: string): nat {
    if rows == [] then 0
    else
      var last := rows[|rows| - 1];
      SaidAndShown(rows[..|rows| - 1], pageOf, pairs, typ, text) +
      if Says(last, typ, text) && !FinalEntry(pageOf(last), pairs, last).duplicate then 1 else 0
  }

  lemma {:induction false} SaidIsReported(rows: seq<TurnEvent>, pageOf: TurnEvent -> seq<TurnEvent>, pairs: Pairs,
                                          typ: EventType, text: string, key: string)
    requires forall b :: b in rows ==> (Says(b, typ, text) <==> Reports(b, key))
    ensures forall source :: Said(rows, typ, text, source) == Reported(rows, key, source)
    ensures SaidAndShown(rows, pageOf, pairs, typ, text) == Shown(rows, pageOf, pairs, key)
  {
    if rows != [] {
      hide FinalEntry, Says, CandidateOf;
      var init, last := rows[..|rows| - 1], rows[|rows| - 1];
      assert rows == init + [last];
      assert last in rows;
      SaidIsReported(init, pageOf, pairs, typ, text, key);
      CandidateSource(last.row);
      SaysBody(last, typ, text);
    }
  }

  lemma SaysBody(b: TurnEvent, typ: EventType, text: string)
    ensures Says(b, typ, text) ==> b.row.body.Some?
  {
  }

  lemma {:induction false} NothingSaid(rows: seq<TurnEvent>, pageOf: TurnEvent -> seq<TurnEvent>, pairs: Pairs,
                                       typ: EventType, text: string)
    requires forall b :: b in rows ==> !Says(b, typ, text)
    ensures forall source :: Said(rows, typ, text, source) == 0
    ensures SaidAndShown(rows, pageOf, pairs, typ, text) == 0
  {
    if rows != [] {
      hide FinalEntry, Says;
      var init, last := rows[..|rows| - 1], rows[|rows| - 1];
      assert rows == init + [last];
      assert last in rows;
      NothingSaid(init, pageOf, pairs, typ, text);
    }
  }

  /** Rows that say the same report the same key, and no other row does. */
  lemma SayingIsReporting(b: TurnEvent, c: TurnEvent, typ: EventType, text: string)
    requires typ in {UserMessage, Result} && text != "" && Says(b, typ, text)
    ensures CandidateOf(b.row).Some?
    ensures Says(c, typ, text) <==> Reports(c, CandidateOf(b.row).value.key)
  {
    hide CandidateOf;
    CandidateIff(b.row);
    CandidateIff(c.row);
    if CandidateOf(c.row).Some? {
      SameKeyIff(b.row, c.row);
    }
  }

  /** With the session's pairs, whatever pages the session is divided into: of each prompt text, and of each
      reply text, exactly max(h, o) entries are shown when the harness said it h times and OTel o times. */
  lemma ShownIsTheLargerCount(rows: seq<TurnEvent>, pageOf: TurnEvent -> seq<TurnEvent>, typ: EventType, text: string)
    requires Rising(rows) && typ in {UserMessage, Result} && text != ""
    ensures SaidAndShown(rows, pageOf, PairsOf(CandidatesOf(OwnRules, rows)), typ, text) ==
            Max(Said(rows, typ, text, Harness), Said(rows, typ, text, OTel))
  {
    hide SaidAndShown, Said, Shown, Reported, PairsOf, CandidatesOf, CandidateOf, Says, Rising;
    var pairs := PairsOf(CandidatesOf(OwnRules, rows));
    if b :| b in rows && Says(b, typ, text) {
      SayingIsReporting(b, b, typ, text);
      var key := CandidateOf(b.row).value.key;
      forall c | c in rows ensures Says(c, typ, text) <==> Reports(c, key) {
        SayingIsReporting(b, c, typ, text);
      }
      SaidIsReported(rows, pageOf, pairs, typ, text, key);
      ShownOfKey(rows, pageOf, key);
    } else {
      NothingSaid(rows, pageOf, pairs, typ, text);
    }
  }

  // ---------------------------------------------------------------- one pair

  lemma CandidateEvent(rows: seq<TurnEvent>, c: Candidate, b: TurnEvent)
    requires Rising(rows) && c in CandidatesOf(OwnRules, rows) && b in rows && b.row.id == c.eventID
    ensures CandidateOf(b.row).Some? && CandidateOf(b.row).value == CandidateFacts(c.key, c.source)
  {
    hide CandidatesOf, TurnIDs, SeqOf, CandidateOf;
    CandidatesAreTheEvents(OwnRules, rows, c);
    var d :| d in rows && OwnRules.candidate(d.row).Some? && c == CandidateRow(OwnRules, rows, d);
    var i :| 0 <= i < |rows| && rows[i] == b;
    var j :| 0 <= j < |rows| && rows[j] == d;
    assert i == j;
  }

  /** A pair of a session: two prompts or two replies of one text, one from each source. On every page both name
      the harness event's group, the harness copy is shown and the OTel copy is not. */
  lemma PairShowsTheHarnessCopy(rows: seq<TurnEvent>, page: seq<TurnEvent>, a: TurnEvent, b: TurnEvent)
    requires Rising(rows) && a in rows && b in rows
    requires var pairs := PairsOf(CandidatesOf(OwnRules, rows)); a.row.id in pairs && pairs[a.row.id] == b.row.id
    ensures a.row.body.Some? && b.row.body.Some?
    ensures var v, w := a.row.body.value, b.row.body.value;
            && v.typ == w.typ && v.typ in {UserMessage, Result} && v.source == Other(w.source)
            && v.result.Some? && w.result.Some? && v.result.value.text == w.result.value.text != ""
    ensures var pairs := PairsOf(CandidatesOf(OwnRules, rows));
            var harness := if a.row.body.value.source == Harness then a.row.id else b.row.id;
            && FinalEntry(page, pairs, a).groupID == Some(harness) && FinalEntry(page, pairs, b).groupID == Some(harness)
            && (FinalEntry(page, pairs, a).duplicate <==> a.row.body.value.source == OTel)
            && (FinalEntry(page, pairs, b).duplicate <==> b.row.body.value.source == OTel)
  {
    hide CandidatesOf, PairsOf, Rising, CandidateOf, FinalEntry, Copies;
    var cands := CandidatesOf(OwnRules, rows);
    CandidatesRise(OwnRules, rows);
    PairsAreSymmetric(cands, a.row.id);
    var c, d :| && c in cands && d in cands && c.eventID == a.row.id && d.eventID == b.row.id
                && c.key == d.key && c.source == Other(d.source);
    CandidateEvent(rows, c, a);
    CandidateEvent(rows, d, b);
    CandidateIff(a.row);
    CandidateIff(b.row);
    SameKeyIff(a.row, b.row);
    PairedCopiesKeepTheirAnnotation(page, PairsOf(cands), a);
    PairedCopiesKeepTheirAnnotation(page, PairsOf(cands), b);
    GroupOfCopy(page, PairsOf(cands), a);
    GroupOfCopy(page, PairsOf(cands), b);
  }

  lemma GroupOfCopy(page: seq<TurnEvent>, pairs: Pairs, b: TurnEvent)
    requires b.row.id in pairs && b.row.body.Some?
    ensures FinalEntry(page, pairs, b).groupID == Some(if b.row.body.value.source == OTel then pairs[b.row.id] else b.row.id)
  {
    hide Promoted, Classify, MessageText;
  }
}
