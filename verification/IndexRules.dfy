/** The rules an event is indexed by: which turn it belongs to, and what of it may be a dual-emitted copy. */
module IndexRules {
  import opened Options
  import opened Decimals
  import opened Events

  // ---------------------------------------------------------------- this version's turn rule

  /** sessionTurnState.assignTurn: the event's own id, else the previous event's turn, else "t_<event id>". */
  function Resolve(last: string, eventID: nat, raw: string): (id: string)
    ensures id != ""
  {
    if raw != "" then raw else if last != "" then last else "t_" + Decimal(eventID)
  }

  // ---------------------------------------------------------------- this version's dual-emit candidates

  /** entryText: only a result payload carries pairing text. */
  function EntryText(ev: Event): string {
    match ev.result
    case Some(r) => r.text
    case None => ""
  }

  predicate CandidateType(typ: EventType) {
    typ == UserMessage || typ == Result
  }

  /** What a candidate pairs on, before hashing. */
  datatype CandidateFacts = CandidateFacts(key: string, source: Source)

  /** dedupCandidateOf. */
  function CandidateOf(row: EventRow): Option<CandidateFacts> {
    if !CandidateType(row.typ) || row.body.None? then None
    else
      var ev := row.body.value;
      if !CandidateType(ev.typ) || EntryText(ev) == "" then None
      else
        var class_ := if ev.typ == UserMessage then "user" else "assistant";
        Some(CandidateFacts(class_ + "\0" + EntryText(ev), ev.source))
  }

  /** An event is a candidate if and only if its row and its body both say prompt or reply, and it has text. */
  lemma CandidateIff(row: EventRow)
    ensures CandidateOf(row).Some? <==>
            && (row.typ == UserMessage || row.typ == Result) && row.body.Some?
            && (row.body.value.typ == UserMessage || row.body.value.typ == Result)
            && row.body.value.result.Some? && row.body.value.result.value.text != ""
    ensures CandidateOf(row).Some? ==> CandidateOf(row).value.source == row.body.value.source
  {
  }

  /** Two candidates pair on the same key if and only if both are prompts or both are replies, of one text. */
  lemma SameKeyIff(a: EventRow, b: EventRow)
    requires CandidateOf(a).Some? && CandidateOf(b).Some?
    ensures CandidateOf(a).value.key == CandidateOf(b).value.key <==>
            && a.body.value.typ == b.body.value.typ
            && a.body.value.result.value.text == b.body.value.result.value.text
  {
    var k, l := CandidateOf(a).value.key, CandidateOf(b).value.key;
    var s, t := EntryText(a.body.value), EntryText(b.body.value);
    assert k[0] == 'u' <==> a.body.value.typ == UserMessage;
    assert l[0] == 'u' <==> b.body.value.typ == UserMessage;
    if a.body.value.typ == b.body.value.typ {
      assert k[|k| - |s|..] == s && l[|l| - |t|..] == t;
    }
  }

  // ---------------------------------------------------------------- every version's rules

  /** What a version of the rules decides: the turn id of an event, after the turn before it, and whether a
      row is a candidate. */
  datatype RuleSet = RuleSet(resolve: (string, nat, string) -> string, candidate: EventRow -> Option<CandidateFacts>)

  /** Every turn has a name, and only rows whose bodies an index build reads are candidates. */
  ghost predicate Sound(r: RuleSet) {
    && (forall last: string, id: nat, raw: string :: r.resolve(last, id, raw) != "")
    && (forall row: EventRow :: !CandidateType(row.typ) ==> r.candidate(row).None?)
  }

  const OwnRuleSet := RuleSet(Resolve, CandidateOf)

  type Rules = r: RuleSet | Sound(r) witness OwnRuleSet

  /** The rules of this version. */
  const OwnRules: Rules := OwnRuleSet
}
