/** Count-wise pairing of dual-emitted copies, and the fingerprint of a turn's pairs. */
module Dedup {
  import opened Decimals
  import opened Events
  import opened TurnRule
  import opened IndexRules
  import opened TurnIndex

  /** dedupPairs: each paired event id to its twin, in both directions. */
  type Pairs = map<nat, nat>

  predicate Maps(pairs: Pairs, x: nat, y: nat) {
    x in pairs && pairs[x] == y
  }

  function Other(s: Source): Source {
    if s == Harness then OTel else Harness
  }

  /** The copies of one key from one source, in event order. */
  function Copies(cands: seq<Candidate>, key: string, source: Source): seq<nat> {
    if cands == [] then []
    else
      var last := cands[|cands| - 1];
      if last.key == key && last.source == source
      then Copies(cands[..|cands| - 1], key, source) + [last.eventID]
      else Copies(cands[..|cands| - 1], key, source)
  }

  ghost predicate RisingCandidates(cands: seq<Candidate>) {
    && (forall i :: 0 <= i < |cands| ==> 0 < cands[i].eventID)
    && (forall i, j :: 0 <= i < j < |cands| ==> cands[i].eventID < cands[j].eventID)
  }

  /** The i-th copy of a key from one source stands opposite the i-th copy from the other. */
  ghost predicate Opposite(cands: seq<Candidate>, key: string, source: Source, i: nat, x: nat, y: nat) {
    && i < |Copies(cands, key, source)| && i < |Copies(cands, key, Other(source))|
    && Copies(cands, key, source)[i] == x && Copies(cands, key, Other(source))[i] == y
  }

  ghost predicate Matched(cands: seq<Candidate>, x: nat, y: nat) {
    exists key, source, i: nat :: Opposite(cands, key, source, i, x, y)
  }

  /** The pairing as it grows: a new copy pairs with the first unpaired copy opposite, if there is one. */
  function PairsOf(cands: seq<Candidate>): Pairs {
    if cands == [] then map[]
    else AddCopy(PairsOf(cands[..|cands| - 1]), cands[..|cands| - 1], cands[|cands| - 1])
  }

  function AddCopy(pairs: Pairs, cands: seq<Candidate>, c: Candidate): Pairs {
    var mine, opposite := Copies(cands, c.key, c.source), Copies(cands, c.key, Other(c.source));
    if |mine| < |opposite| then pairs[c.eventID := opposite[|mine|]][opposite[|mine|] := c.eventID] else pairs
  }

  // ---------------------------------------------------------------- queues

  lemma CopiesSnoc(cands: seq<Candidate>, c: Candidate, key: string, source: Source)
    ensures Copies(cands + [c], key, source) ==
            if c.key == key && c.source == source then Copies(cands, key, source) + [c.eventID] else Copies(cands, key, source)
  {
    assert (cands + [c])[..|cands|] == cands;
  }

  lemma {:induction false} CopiesMembers(cands: seq<Candidate>, key: string, source: Source, x: nat)
    ensures x in Copies(cands, key, source) <==>
            exists c :: c in cands && c.eventID == x && c.key == key && c.source == source
  {
    if cands != [] {
      var init, last := cands[..|cands| - 1], cands[|cands| - 1];
      assert cands == init + [last];
      CopiesMembers(init, key, source, x);
      assert last in cands;
      if exists c :: c in init && c.eventID == x && c.key == key && c.source == source {
        var c :| c in init && c.eventID == x && c.key == key && c.source == source;
        assert c in cands;
      }
    }
  }

  lemma {:induction false} CopiesRise(cands: seq<Candidate>, key: string, source: Source)
    requires RisingCandidates(cands)
    ensures var q := Copies(cands, key, source);
            forall i, j :: 0 <= i < j < |q| ==> q[i] < q[j]
  {
    if cands != [] {
      var init, last := cands[..|cands| - 1], cands[|cands| - 1];
      CopiesRise(init, key, source);
      var q := Copies(init, key, source);
      forall i | 0 <= i < |q| ensures q[i] < last.eventID {
        CopiesMembers(init, key, source, q[i]);
        var c :| c in init && c.eventID == q[i] && c.key == key && c.source == source;
        var j :| 0 <= j < |init| && init[j] == c;
        assert cands[j] == c;
      }
    }
  }

  lemma SameCopy(cands: seq<Candidate>, x: nat, k1: string, s1: Source, k2: string, s2: Source)
    requires RisingCandidates(cands)
    requires x in Copies(cands, k1, s1) && x in Copies(cands, k2, s2)
    ensures k1 == k2 && s1 == s2
  {
    CopiesMembers(cands, k1, s1, x);
    CopiesMembers(cands, k2, s2, x);
    var a :| a in cands && a.eventID == x && a.key == k1 && a.source == s1;
    var b :| b in cands && b.eventID == x && b.key == k2 && b.source == s2;
    var i :| 0 <= i < |cands| && cands[i] == a;
    var j :| 0 <= j < |cands| && cands[j] == b;
  }

  /** A copy stands opposite at most one other. */
  lemma OppositeUnique(cands: seq<Candidate>, x: nat, y: nat, y': nat)
    requires RisingCandidates(cands) && Matched(cands, x, y) && Matched(cands, x, y')
    ensures y == y'
  {
    var k, s, i: nat :| Opposite(cands, k, s, i, x, y);
    var k', s', i': nat :| Opposite(cands, k', s', i', x, y');
    assert x in Copies(cands, k, s) && x in Copies(cands, k', s');
    SameCopy(cands, x, k, s, k', s');
    CopiesRise(cands, k, s);
  }

  // ---------------------------------------------------------------- the pairing is count-wise

  lemma OppositeKept(cands: seq<Candidate>, c: Candidate, key: string, source: Source, i: nat, x: nat, y: nat)
    requires Opposite(cands, key, source, i, x, y)
    ensures Opposite(cands + [c], key, source, i, x, y)
  {
    CopiesSnoc(cands, c, key, source);
    CopiesSnoc(cands, c, key, Other(source));
  }

  /** Adding a copy adds one match, between it and the copy opposite its place, or none. */
  lemma MatchedSnoc(cands: seq<Candidate>, c: Candidate, x: nat, y: nat)
    ensures var mine, opposite := Copies(cands, c.key, c.source), Copies(cands, c.key, Other(c.source));
            Matched(cands + [c], x, y) <==>
            || Matched(cands, x, y)
            || (|mine| < |opposite| && x == c.eventID && y == opposite[|mine|])
            || (|mine| < |opposite| && x == opposite[|mine|] && y == c.eventID)
  {
    var all := cands + [c];
    var mine, opposite := Copies(cands, c.key, c.source), Copies(cands, c.key, Other(c.source));
    CopiesSnoc(cands, c, c.key, c.source);
    CopiesSnoc(cands, c, c.key, Other(c.source));
    assert Other(Other(c.source)) == c.source;
    if Matched(cands, x, y) {
      var k, s, i: nat :| Opposite(cands, k, s, i, x, y);
      OppositeKept(cands, c, k, s, i, x, y);
    }
    if |mine| < |opposite| {
      assert Opposite(all, c.key, c.source, |mine|, c.eventID, opposite[|mine|]);
      assert Opposite(all, c.key, Other(c.source), |mine|, opposite[|mine|], c.eventID);
    }
    if Matched(all, x, y) {
      var k, s, i: nat :| Opposite(all, k, s, i, x, y);
      CopiesSnoc(cands, c, k, s);
      CopiesSnoc(cands, c, k, Other(s));
      if i < |Copies(cands, k, s)| && i < |Copies(cands, k, Other(s))| {
        assert Opposite(cands, k, s, i, x, y);
      }
    }
  }

  /** The pairing is exactly the order-preserving, count-wise one, key by key. */
  lemma {:induction false} PairsAreCountwise(cands: seq<Candidate>)
    requires RisingCandidates(cands)
    ensures forall x, y :: Maps(PairsOf(cands), x, y) <==> Matched(cands, x, y)
  {
    if cands == [] {
    } else {
      var init, c := cands[..|cands| - 1], cands[|cands| - 1];
      assert cands == init + [c];
      PairsAreCountwise(init);
      forall x, y ensures Maps(PairsOf(cands), x, y) <==> Matched(cands, x, y) {
        MatchedSnoc(init, c, x, y);
        if x in PairsOf(init) {
          assert Maps(PairsOf(init), x, PairsOf(init)[x]);
          NewCopyUnmatched(init, c, x, PairsOf(init)[x]);
        }
      }
    }
  }

  lemma NewCopyUnmatched(init: seq<Candidate>, c: Candidate, x: nat, y: nat)
    requires RisingCandidates(init + [c]) && Matched(init, x, y)
    ensures x != c.eventID
    ensures var mine, opposite := Copies(init, c.key, c.source), Copies(init, c.key, Other(c.source));
            |mine| < |opposite| ==> x != opposite[|mine|]
  {
    assert (init + [c])[..|init|] == init;
    var k, s, i: nat :| Opposite(init, k, s, i, x, y);
    assert x in Copies(init, k, s);
    CopiesMembers(init, k, s, x);
    var d :| d in init && d.eventID == x && d.key == k && d.source == s;
    var j :| 0 <= j < |init| && init[j] == d;
    assert (init + [c])[j] == d && (init + [c])[|init|] == c;
    var mine, opposite := Copies(init, c.key, c.source), Copies(init, c.key, Other(c.source));
    if |mine| < |opposite| && x == opposite[|mine|] {
      assert RisingCandidates(init);
      assert x in opposite;
      SameCopy(init, x, k, s, c.key, Other(c.source));
      CopiesRise(init, k, s);
    }
  }

  lemma OppositeOf(cands: seq<Candidate>, x: nat, y: nat)
    requires Matched(cands, x, y)
    ensures Matched(cands, y, x)
  {
    var k, s, i: nat :| Opposite(cands, k, s, i, x, y);
    assert Other(Other(s)) == s;
    assert Opposite(cands, k, Other(s), i, y, x);
  }

  /** The pairing is a symmetric one-to-one map between copies of one text from opposite sources. */
  lemma PairsAreSymmetric(cands: seq<Candidate>, x: nat)
    requires RisingCandidates(cands) && x in PairsOf(cands)
    ensures var y := PairsOf(cands)[x];
            && y in PairsOf(cands) && PairsOf(cands)[y] == x
            && exists a, b :: a in cands && b in cands && a.eventID == x && b.eventID == y
                              && a.key == b.key && a.source == Other(b.source)
  {
    PairsAreCountwise(cands);
    var y := PairsOf(cands)[x];
    assert Maps(PairsOf(cands), x, y);
    OppositeOf(cands, x, y);
    assert Maps(PairsOf(cands), y, x);
    var k, s, i: nat :| Opposite(cands, k, s, i, x, y);
    CopiesMembers(cands, k, s, x);
    CopiesMembers(cands, k, Other(s), y);
  }

  /** A new copy keeps every pair and makes at most one new one, its own. */
  lemma AppendKeepsPairs(cands: seq<Candidate>, c: Candidate)
    requires RisingCandidates(cands + [c])
    ensures forall x :: x in PairsOf(cands) ==> x in PairsOf(cands + [c]) && PairsOf(cands + [c])[x] == PairsOf(cands)[x]
    ensures forall x :: x in PairsOf(cands + [c]) && x !in PairsOf(cands) ==>
              c.eventID in PairsOf(cands + [c]) && (x == c.eventID || x == PairsOf(cands + [c])[c.eventID])
  {
    assert (cands + [c])[..|cands|] == cands;
    assert RisingCandidates(cands);
    PairsAreCountwise(cands);
    forall x | x in PairsOf(cands)
      ensures x in PairsOf(cands + [c]) && PairsOf(cands + [c])[x] == PairsOf(cands)[x]
    {
      assert Maps(PairsOf(cands), x, PairsOf(cands)[x]);
      NewCopyUnmatched(cands, c, x, PairsOf(cands)[x]);
    }
    var mine, opposite := Copies(cands, c.key, c.source), Copies(cands, c.key, Other(c.source));
    if |mine| < |opposite| {
      NewCopyIsNotOpposite(cands, c);
    }
  }

  lemma NewCopyIsNotOpposite(cands: seq<Candidate>, c: Candidate)
    requires RisingCandidates(cands + [c])
    ensures c.eventID !in Copies(cands, c.key, Other(c.source))
  {
    CopiesMembers(cands, c.key, Other(c.source), c.eventID);
    forall d | d in cands ensures d.eventID < c.eventID {
      var i :| 0 <= i < |cands| && cands[i] == d;
      assert (cands + [c])[i] == d && (cands + [c])[|cands|] == c;
    }
  }

  // ---------------------------------------------------------------- how many copies stay visible

  /** The copies of a key that pairing leaves visible: all but the OTel copies that have a twin. */
  function VisibleCopies(cands: seq<Candidate>, pairs: Pairs, key: string): nat {
    if cands == [] then 0
    else
      var last := cands[|cands| - 1];
      VisibleCopies(cands[..|cands| - 1], pairs, key) +
      if last.key == key && !(last.source == OTel && last.eventID in pairs) then 1 else 0
  }

  lemma PairedIffWithinBoth(cands: seq<Candidate>, key: string, source: Source, i: nat)
    requires RisingCandidates(cands) && i < |Copies(cands, key, source)|
    ensures Copies(cands, key, source)[i] in PairsOf(cands) <==> i < |Copies(cands, key, Other(source))|
  {
    PairsAreCountwise(cands);
    var x := Copies(cands, key, source)[i];
    if i < |Copies(cands, key, Other(source))| {
      assert Opposite(cands, key, source, i, x, Copies(cands, key, Other(source))[i]);
      assert Maps(PairsOf(cands), x, Copies(cands, key, Other(source))[i]);
    }
    if x in PairsOf(cands) {
      assert Maps(PairsOf(cands), x, PairsOf(cands)[x]);
      var k, s, j: nat :| Opposite(cands, k, s, j, x, PairsOf(cands)[x]);
      assert x in Copies(cands, k, s) && x in Copies(cands, key, source);
      SameCopy(cands, x, key, source, k, s);
      CopiesRise(cands, key, source);
    }
  }

  function Max(a: nat, b: nat): nat {
    if a < b then b else a
  }

  lemma {:induction false} VisiblePrefix(cands: seq<Candidate>, n: nat, key: string)
    requires RisingCandidates(cands) && n <= |cands|
    ensures Copies(cands[..n], key, OTel) <= Copies(cands, key, OTel)
    ensures var h, o := |Copies(cands, key, Harness)|, |Copies(cands[..n], key, OTel)|;
            VisibleCopies(cands[..n], PairsOf(cands), key) ==
            |Copies(cands[..n], key, Harness)| + if h < o then o - h else 0
    decreases n
  {
    CopiesPrefix(cands, n, key, OTel);
    if n > 0 {
      var init, last := cands[..n - 1], cands[n - 1];
      assert cands[..n] == init + [last];
      assert cands[..n][..n - 1] == init;
      VisiblePrefix(cands, n - 1, key);
      CopiesSnoc(init, last, key, OTel);
      CopiesSnoc(init, last, key, Harness);
      if last.key == key && last.source == OTel {
        var i := |Copies(init, key, OTel)|;
        assert Copies(cands, key, OTel)[i] == last.eventID;
        PairedIffWithinBoth(cands, key, OTel, i);
      }
    }
  }

  lemma {:induction false} CopiesPrefix(cands: seq<Candidate>, n: nat, key: string, source: Source)
    requires n <= |cands|
    ensures Copies(cands[..n], key, source) <= Copies(cands, key, source)
  {
    if n < |cands| {
      CopiesPrefix(cands[..|cands| - 1], n, key, source);
      assert cands[..|cands| - 1][..n] == cands[..n];
    } else {
      assert cands[..n] == cands;
    }
  }

  /** Of each text, as many copies stay visible as the source that reported it more often reported. */
  lemma VisibleCopiesAreTheLargerCount(cands: seq<Candidate>, key: string)
    requires RisingCandidates(cands)
    ensures VisibleCopies(cands, PairsOf(cands), key) ==
            Max(|Copies(cands, key, Harness)|, |Copies(cands, key, OTel)|)
  {
    VisiblePrefix(cands, |cands|, key);
    assert cands[..|cands|] == cands;
  }

  // ---------------------------------------------------------------- the fingerprint

  /** The twin a fingerprint writes down: 0 for a copy that has none. */
  function TwinOf(pairs: Pairs, id: nat): nat {
    if id in pairs then pairs[id] else 0
  }

  /** The candidates of one turn, in event order. */
  function TurnCandidates(cands: seq<Candidate>, turnSeq: nat): seq<nat> {
    if cands == [] then []
    else
      var last := cands[|cands| - 1];
      if last.turnSeq == turnSeq then TurnCandidates(cands[..|cands| - 1], turnSeq) + [last.eventID]
      else TurnCandidates(cands[..|cands| - 1], turnSeq)
  }

  function FingerprintText(ids: seq<nat>, pairs: Pairs): string {
    if ids == [] then ""
    else FingerprintText(ids[..|ids| - 1], pairs) + Mark(ids[|ids| - 1], TwinOf(pairs, ids[|ids| - 1]))
  }

  function Mark(id: nat, twin: nat): string {
    Decimal(id) + ":" + Decimal(twin) + ";"
  }

  /** How many digits a text starts with. */
  function DigitsAhead(s: string): nat {
    if s == "" || !IsDigit(s[0]) then 0 else 1 + DigitsAhead(s[1..])
  }

  lemma {:induction false} DigitsEndAtColon(digits: string, rest: string)
    requires forall i :: 0 <= i < |digits| ==> IsDigit(digits[i])
    requires rest != "" && !IsDigit(rest[0])
    ensures DigitsAhead(digits + rest) == |digits|
  {
    if digits == "" {
      assert digits + rest == rest;
    } else {
      DigitsEndAtColon(digits[1..], rest);
      assert (digits + rest)[1..] == digits[1..] + rest;
    }
  }

  lemma MarkInjective(a: nat, b: nat, a': nat, b': nat)
    requires Mark(a, b) == Mark(a', b')
    ensures a == a' && b == b'
  {
    var left, right := Mark(a, b), Mark(a', b');
    var m := |Decimal(a)|;
    assert left == Decimal(a) + (":" + Decimal(b) + ";");
    assert right == Decimal(a') + (":" + Decimal(b') + ";");
    DigitsEndAtColon(Decimal(a), ":" + Decimal(b) + ";");
    DigitsEndAtColon(Decimal(a'), ":" + Decimal(b') + ";");
    assert left[..m] == Decimal(a) && right[..m] == Decimal(a');
    assert left[m + 1..|left| - 1] == Decimal(b) && right[m + 1..|right| - 1] == Decimal(b');
    DecimalInjective(a, a');
    DecimalInjective(b, b');
  }

  /** Where the mark holding position `end` starts: just after the semicolon before it. */
  function MarkStart(t: string, end: nat): nat
    requires end <= |t|
  {
    if end == 0 || t[end - 1] == ';' then end else MarkStart(t, end - 1)
  }

  lemma {:induction false} LastMarkStart(s: string, a: nat, b: nat, end: nat)
    requires s != "" ==> s[|s| - 1] == ';'
    requires |s| <= end < |s + Mark(a, b)|
    ensures MarkStart(s + Mark(a, b), end) == |s|
  {
    if end > |s| {
      var i := end - 1 - |s|;
      assert (s + Mark(a, b))[end - 1] == Mark(a, b)[i];
      assert Mark(a, b)[i] != ';' by {
        if i < |Decimal(a)| {
          assert Mark(a, b)[i] == Decimal(a)[i];
        } else if i > |Decimal(a)| {
          assert Mark(a, b)[i] == Decimal(b)[i - |Decimal(a)| - 1];
        }
      }
      LastMarkStart(s, a, b, end - 1);
    }
  }

  lemma LastMarkUnique(s: string, t: string, a: nat, b: nat, a': nat, b': nat)
    requires s + Mark(a, b) == t + Mark(a', b')
    requires s != "" ==> s[|s| - 1] == ';'
    requires t != "" ==> t[|t| - 1] == ';'
    ensures s == t && Mark(a, b) == Mark(a', b')
  {
    hide MarkStart, Decimal;
    var all := s + Mark(a, b);
    LastMarkStart(s, a, b, |all| - 1);
    LastMarkStart(t, a', b', |all| - 1);
    assert s == all[..|s|] && t == all[..|s|];
    assert Mark(a, b) == all[|s|..] && Mark(a', b') == all[|s|..];
  }

  lemma TextEndsInSemicolon(ids: seq<nat>, pairs: Pairs)
    ensures FingerprintText(ids, pairs) == "" <==> ids == []
    ensures ids != [] ==> FingerprintText(ids, pairs)[|FingerprintText(ids, pairs)| - 1] == ';'
  {
  }

  /** Two turns' fingerprint texts agree only when they name the same candidates with the same twins. */
  lemma {:induction false} FingerprintInjective(ids: seq<nat>, p: Pairs, ids': seq<nat>, p': Pairs)
    requires FingerprintText(ids, p) == FingerprintText(ids', p')
    ensures ids == ids'
    ensures forall id :: id in ids ==> TwinOf(p, id) == TwinOf(p', id)
  {
    TextEndsInSemicolon(ids, p);
    TextEndsInSemicolon(ids', p');
    if ids != [] {
      var init, last := ids[..|ids| - 1], ids[|ids| - 1];
      var init', last' := ids'[..|ids'| - 1], ids'[|ids'| - 1];
      TextEndsInSemicolon(init, p);
      TextEndsInSemicolon(init', p');
      LastMarkUnique(FingerprintText(init, p), FingerprintText(init', p'), last, TwinOf(p, last), last', TwinOf(p', last'));
      MarkInjective(last, TwinOf(p, last), last', TwinOf(p', last'));
      FingerprintInjective(init, p, init', p');
      assert ids == init + [last] && ids' == init' + [last'];
    }
  }

  /** sessionPairing.fingerprint: what a turn's pairs are under a session's candidates. */
  function Fingerprint(cands: seq<Candidate>, turnSeq: nat): string {
    FingerprintText(TurnCandidates(cands, turnSeq), PairsOf(cands))
  }

  // ---------------------------------------------------------------- candidates of an indexed log

  lemma {:induction false} CandidatesRise(rules: Rules, rows: seq<TurnEvent>)
    requires Rising(rows)
    ensures RisingCandidates(CandidatesOf(rules, rows))
  {
    hide CandidatesOf;
    NoCandidates(rules);
    if rows != [] {
      var init, last := rows[..|rows| - 1], rows[|rows| - 1];
      CandidatesRise(rules, init);
      OlderCandidates(rules, init, last);
      CandidatesGrow(rules, init, last);
      assert rows == init + [last];
    }
  }

  lemma NoCandidates(rules: Rules)
    ensures CandidatesOf(rules, []) == []
  {
  }

  /** Every candidate of some rows is older than the row after them. */
  lemma OlderCandidates(rules: Rules, rows: seq<TurnEvent>, b: TurnEvent)
    requires Rising(rows + [b])
    ensures forall c :: c in CandidatesOf(rules, rows) ==> c.eventID < b.row.id
  {
    hide CandidatesOf;
    CandidatesBelow(rules, rows);
    forall c | c in CandidatesOf(rules, rows) ensures c.eventID < b.row.id {
      var d :| d in rows && d.row.id == c.eventID;
      var i :| 0 <= i < |rows| && rows[i] == d;
      assert (rows + [b])[i] == d && (rows + [b])[|rows|] == b;
    }
  }

  lemma CandidatesGrow(rules: Rules, rows: seq<TurnEvent>, b: TurnEvent)
    ensures CandidatesOf(rules, rows + [b]) == CandidatesOf(rules, rows) ||
            exists c: Candidate :: c.eventID == b.row.id && CandidatesOf(rules, rows + [b]) == CandidatesOf(rules, rows) + [c]
  {
    hide CandidatesOf;
    CandidatesOfSnoc(rules, rows, b);
  }
}
