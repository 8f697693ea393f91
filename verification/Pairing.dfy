/** The loops of dedup.go: per-key queues, the pairs read off them, and the fingerprint written out. */
module Pairing {
  import opened Decimals
  import opened Events
  import opened TurnIndex
  import opened Dedup

  datatype Queues = Queues(harness: seq<nat>, otel: seq<nat>)

  function QueuesAt(byKey: map<string, Queues>, key: string): Queues {
    if key in byKey then byKey[key] else Queues([], [])
  }

  ghost predicate QueuesOf(cands: seq<Candidate>, key: string, q: Queues) {
    q.harness == Copies(cands, key, Harness) && q.otel == Copies(cands, key, OTel)
  }

  /** A match under one of the keys done, or at one of the first n places of the key in progress. */
  ghost predicate MatchedSoFar(cands: seq<Candidate>, done: seq<string>, key: string, n: nat, x: nat, y: nat) {
    exists k, s, i: nat :: Opposite(cands, k, s, i, x, y) && (k in done || (k == key && i < n))
  }

  ghost predicate PairsSoFar(cands: seq<Candidate>, done: seq<string>, key: string, n: nat, pairs: Pairs) {
    forall x, y :: Maps(pairs, x, y) <==> MatchedSoFar(cands, done, key, n, x, y)
  }

  /** The pair at one more place, seen from both ends, is the only new match. */
  lemma OneMatchMore(cands: seq<Candidate>, done: seq<string>, key: string, n: nat, x: nat, y: nat)
    requires RisingCandidates(cands)
    requires n < |Copies(cands, key, Harness)| && n < |Copies(cands, key, OTel)|
    ensures var h, o := Copies(cands, key, Harness)[n], Copies(cands, key, OTel)[n];
            MatchedSoFar(cands, done, key, n + 1, x, y) <==>
            MatchedSoFar(cands, done, key, n, x, y) || (x == h && y == o) || (x == o && y == h)
  {
    var h, o := Copies(cands, key, Harness)[n], Copies(cands, key, OTel)[n];
    assert Opposite(cands, key, Harness, n, h, o) && Opposite(cands, key, OTel, n, o, h);
    if MatchedSoFar(cands, done, key, n, x, y) {
      var k, s, i: nat :| Opposite(cands, k, s, i, x, y) && (k in done || (k == key && i < n));
      assert k in done || (k == key && i < n + 1);
    }
    if MatchedSoFar(cands, done, key, n + 1, x, y) {
      var k, s, i: nat :| Opposite(cands, k, s, i, x, y) && (k in done || (k == key && i < n + 1));
      if k !in done && i == n {
        assert s == Harness || s == OTel;
      } else {
        assert k in done || (k == key && i < n);
      }
    }
  }

  /** A place not reached yet holds copies no match so far uses, unless under the same twin. */
  lemma MatchedSoFarIsMatched(cands: seq<Candidate>, done: seq<string>, key: string, n: nat, x: nat, y: nat)
    requires MatchedSoFar(cands, done, key, n, x, y)
    ensures Matched(cands, x, y)
  {
    var k, s, i: nat :| Opposite(cands, k, s, i, x, y) && (k in done || (k == key && i < n));
  }

  lemma OnePairMore(cands: seq<Candidate>, done: seq<string>, key: string, n: nat, pairs: Pairs)
    requires RisingCandidates(cands) && PairsSoFar(cands, done, key, n, pairs)
    requires n < |Copies(cands, key, Harness)| && n < |Copies(cands, key, OTel)|
    ensures var h, o := Copies(cands, key, Harness)[n], Copies(cands, key, OTel)[n];
            PairsSoFar(cands, done, key, n + 1, pairs[h := o][o := h])
  {
    var h, o := Copies(cands, key, Harness)[n], Copies(cands, key, OTel)[n];
    var pairs' := pairs[h := o][o := h];
    assert Opposite(cands, key, Harness, n, h, o) && Opposite(cands, key, OTel, n, o, h);
    assert Matched(cands, h, o) && Matched(cands, o, h);
    SameCopyTwice(cands, h, o);
    forall x, y ensures Maps(pairs', x, y) <==> MatchedSoFar(cands, done, key, n + 1, x, y) {
      OneMatchMore(cands, done, key, n, x, y);
      if MatchedSoFar(cands, done, key, n, x, y) && (x == h || x == o) {
        MatchedSoFarIsMatched(cands, done, key, n, x, y);
        OppositeUnique(cands, x, y, if x == h then o else h);
      }
    }
  }

  lemma SameCopyTwice(cands: seq<Candidate>, x: nat, y: nat)
    requires RisingCandidates(cands) && Matched(cands, x, y)
    ensures x != y
  {
    var k, s, i: nat :| Opposite(cands, k, s, i, x, y);
    if x == y {
      assert x in Copies(cands, k, s) && x in Copies(cands, k, Other(s));
      SameCopy(cands, x, k, s, k, Other(s));
    }
  }

  lemma KeyDone(cands: seq<Candidate>, done: seq<string>, key: string, n: nat, pairs: Pairs)
    requires PairsSoFar(cands, done, key, n, pairs)
    requires n == |Copies(cands, key, Harness)| || n == |Copies(cands, key, OTel)|
    ensures forall next :: PairsSoFar(cands, done + [key], next, 0, pairs)
  {
    forall next, x, y ensures Maps(pairs, x, y) <==> MatchedSoFar(cands, done + [key], next, 0, x, y) {
      if MatchedSoFar(cands, done, key, n, x, y) {
        var k, s, i: nat :| Opposite(cands, k, s, i, x, y) && (k in done || (k == key && i < n));
        assert k in done + [key];
      }
      if MatchedSoFar(cands, done + [key], next, 0, x, y) {
        var k, s, i: nat :| Opposite(cands, k, s, i, x, y) && (k in done + [key] || (k == next && i < 0));
        assert Other(Harness) == OTel && Other(OTel) == Harness;
        assert k in done || (k == key && i < n);
      }
    }
  }

  lemma AllKeysDone(cands: seq<Candidate>, keys: seq<string>, key: string, pairs: Pairs)
    requires RisingCandidates(cands) && PairsSoFar(cands, keys, key, 0, pairs)
    requires forall k :: k !in keys ==> Copies(cands, k, Harness) == [] && Copies(cands, k, OTel) == []
    ensures pairs == PairsOf(cands)
  {
    PairsAreCountwise(cands);
    forall x, y ensures Maps(pairs, x, y) <==> Maps(PairsOf(cands), x, y) {
      if MatchedSoFar(cands, keys, key, 0, x, y) {
        MatchedSoFarIsMatched(cands, keys, key, 0, x, y);
      }
      if Matched(cands, x, y) {
        var k, s, i: nat :| Opposite(cands, k, s, i, x, y);
        assert Copies(cands, k, s) != [];
        assert k in keys;
      }
    }
    forall x | x in pairs ensures Maps(PairsOf(cands), x, pairs[x]) {
      assert Maps(pairs, x, pairs[x]);
    }
    forall x | x in PairsOf(cands) ensures x in pairs {
      assert Maps(PairsOf(cands), x, PairsOf(cands)[x]);
    }
  }

  lemma QueuesSnoc(cands: seq<Candidate>, c: Candidate, key: string, q: Queues)
    requires QueuesOf(cands, key, q)
    ensures QueuesOf(cands + [c], key,
                     if key != c.key then q
                     else if c.source == OTel then q.(otel := q.otel + [c.eventID])
                     else q.(harness := q.harness + [c.eventID]))
  {
    CopiesSnoc(cands, c, key, Harness);
    CopiesSnoc(cands, c, key, OTel);
  }

  /** The first loop of pairDualEmits: every copy into its key's queue for its source. */
  method QueueCopies(candidates: seq<Candidate>) returns (keys: seq<string>, byKey: map<string, Queues>)
    ensures forall k :: k in keys <==> k in byKey
    ensures forall k :: QueuesOf(candidates, k, QueuesAt(byKey, k))
  {
    byKey := map[];
    keys := [];
    for i := 0 to |candidates|
      invariant forall k :: k in keys <==> k in byKey
      invariant forall k :: QueuesOf(candidates[..i], k, QueuesAt(byKey, k))
    {
      var c := candidates[i];
      assert candidates[..i + 1] == candidates[..i] + [c];
      ghost var was := byKey;
      var q := Queues([], []);
      if c.key in byKey {
        q := byKey[c.key];
      } else {
        keys := keys + [c.key];
      }
      if c.source == OTel {
        q := q.(otel := q.otel + [c.eventID]);
      } else {
        q := q.(harness := q.harness + [c.eventID]);
      }
      byKey := byKey[c.key := q];
      forall k ensures QueuesOf(candidates[..i + 1], k, QueuesAt(byKey, k)) {
        QueuesSnoc(candidates[..i], c, k, QueuesAt(was, k));
      }
    }
    assert candidates[..|candidates|] == candidates;
  }

  /** pairDualEmits. */
  method PairDualEmits(candidates: seq<Candidate>) returns (pairs: Pairs)
    requires RisingCandidates(candidates)
    ensures pairs == PairsOf(candidates)
  {
    var keys, byKey := QueueCopies(candidates);
    pairs := map[];
    for j := 0 to |keys|
      invariant forall next :: PairsSoFar(candidates, keys[..j], next, 0, pairs)
    {
      var key := keys[j];
      var q := byKey[key];
      assert QueuesOf(candidates, key, QueuesAt(byKey, key));
      var n := |q.harness|;
      if |q.otel| < n {
        n := |q.otel|;
      }
      for i := 0 to n
        invariant PairsSoFar(candidates, keys[..j], key, i, pairs)
      {
        OnePairMore(candidates, keys[..j], key, i, pairs);
        pairs := pairs[q.harness[i] := q.otel[i]];
        pairs := pairs[q.otel[i] := q.harness[i]];
      }
      KeyDone(candidates, keys[..j], key, n, pairs);
      assert keys[..j + 1] == keys[..j] + [key];
    }
    assert keys[..|keys|] == keys;
    forall k | k !in keys ensures Copies(candidates, k, Harness) == [] && Copies(candidates, k, OTel) == [] {
      assert QueuesOf(candidates, k, QueuesAt(byKey, k));
    }
    AllKeysDone(candidates, keys, "", pairs);
  }

  // ---------------------------------------------------------------- the fingerprint

  function InsertSorted(ids: seq<nat>, id: nat): seq<nat> {
    if ids == [] || ids[|ids| - 1] <= id then ids + [id] else InsertSorted(ids[..|ids| - 1], id) + [ids[|ids| - 1]]
  }

  /** sort.Slice by id. */
  function Sorted(ids: seq<nat>): seq<nat> {
    if ids == [] then [] else InsertSorted(Sorted(ids[..|ids| - 1]), ids[|ids| - 1])
  }

  /** Candidates come in event order, so the sort changes nothing. */
  lemma {:induction false} SortedAlready(ids: seq<nat>)
    requires forall i, j :: 0 <= i < j < |ids| ==> ids[i] < ids[j]
    ensures Sorted(ids) == ids
  {
    if ids != [] {
      SortedAlready(ids[..|ids| - 1]);
    }
  }

  /** pairsFingerprint, before hashing. */
  method PairsFingerprint(candidateEventIDs: seq<nat>, pairs: Pairs) returns (text: string)
    ensures text == FingerprintText(Sorted(candidateEventIDs), pairs)
  {
    hide FingerprintText, Sorted, Decimal, TwinOf;
    NothingToName(pairs);
    if |candidateEventIDs| == 0 {
      return "";
    }
    var ids := Sorted(candidateEventIDs);
    text := "";
    for i := 0 to |ids|
      invariant text == FingerprintText(ids[..i], pairs)
    {
      FingerprintOneMore(ids, i, pairs, text);
      text := text + Decimal(ids[i]);
      text := text + ":";
      text := text + Decimal(TwinOf(pairs, ids[i]));
      text := text + ";";
    }
    assert ids[..|ids|] == ids;
  }

  lemma NothingToName(pairs: Pairs)
    ensures FingerprintText([], pairs) == "" && Sorted([]) == []
  {
  }

  lemma FingerprintOneMore(ids: seq<nat>, i: nat, pairs: Pairs, text: string)
    requires i < |ids| && text == FingerprintText(ids[..i], pairs)
    ensures text + Decimal(ids[i]) + ":" + Decimal(TwinOf(pairs, ids[i])) + ";" == FingerprintText(ids[..i + 1], pairs)
  {
    hide Decimal;
    assert ids[..i + 1][..i] == ids[..i];
    assert text + Decimal(ids[i]) + ":" + Decimal(TwinOf(pairs, ids[i])) + ";" == text + Mark(ids[i], TwinOf(pairs, ids[i]));
  }
}
