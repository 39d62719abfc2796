/** Token overlap and candidate pairs of `app/services/contradiction_detector.py`; ratios are kept as fractions. */
module Overlap {
  import opened Prelude

  const NEGATION_MARKERS: set<string> :=
    {"not", "no", "never", "none", "without", "fails", "refutes", "denies", "disputes", "contradicts", "unable"}

  /** The Jaccard overlap of `a` and `b` is at least `num / den`; it is 0 when both are empty. */
  predicate JaccardAtLeast(a: set<string>, b: set<string>, num: nat, den: nat) {
    if a + b == {} then num == 0 else den * |a * b| >= num * |a + b|
  }

  /** The smaller of the two shared fractions is at least `num / den`; it is 0 when a set is empty. */
  predicate ContainmentAtLeast(a: set<string>, b: set<string>, num: nat, den: nat) {
    if a == {} || b == {} then num == 0
    else den * |a * b| >= num * |a| && den * |a * b| >= num * |b|
  }

  predicate HasMarker(tokens: set<string>) {
    tokens * NEGATION_MARKERS != {}
  }

  /** `negation_signal`: shared core content, and exactly one side negated. */
  predicate NegationSignal(a: set<string>, b: set<string>) {
    ContainmentAtLeast(a, b, 4, 10) && HasMarker(a) != HasMarker(b)
  }

  /** The test of `candidate_pairs`. */
  predicate IsCandidate(a: set<string>, b: set<string>) {
    JaccardAtLeast(a, b, 15, 100) || HasMarker(a) || HasMarker(b)
  }

  /** Jaccard is at most min-containment: whatever threshold it reaches, containment reaches. */
  lemma JaccardBelowContainment(a: set<string>, b: set<string>, num: nat, den: nat)
    requires a != {} && b != {} && JaccardAtLeast(a, b, num, den)
    ensures ContainmentAtLeast(a, b, num, den)
  {
    assert |a + b| == |a| + |b - a| && a + b == b + (a - b) && |b + (a - b)| == |b| + |a - b|;
    Scaled(num, |a|, |a + b|);
    Scaled(num, |b|, |a + b|);
  }

  lemma Scaled(k: nat, x: nat, y: nat)
    requires x <= y
    ensures k * x <= k * y
  {
  }

  /** Containment of at least 0.4 means a Jaccard overlap of at least 0.25. */
  lemma ContainmentGivesJaccard(a: set<string>, b: set<string>)
    requires ContainmentAtLeast(a, b, 4, 10)
    ensures JaccardAtLeast(a, b, 25, 100)
  {
    assert |a + b| == |a| + |b| - |a * b|;
    assert a <= a + b;
  }

  /**
   A pair that passes the confirm signal always passed the candidate overlap, whatever its markers; order
   does not matter.
   */
  lemma SignalledPairsAreCandidates(a: set<string>, b: set<string>)
    ensures NegationSignal(a, b) ==> JaccardAtLeast(a, b, 15, 100)
    ensures NegationSignal(a, b) == NegationSignal(b, a) && IsCandidate(a, b) == IsCandidate(b, a)
  {
    assert a * b == b * a && a + b == b + a;
    if NegationSignal(a, b) {
      ContainmentGivesJaccard(a, b);
    }
  }

  // ---------------------------------------------------------------- candidate pairs

  /** A statement as the detector sees it. */
  datatype Claim = Claim(id: nat, tokens: set<string>, verified: bool)

  function VerifiedOnly(claims: seq<Claim>): seq<Claim> {
    if claims == [] then []
    else
      var n := |claims| - 1;
      VerifiedOnly(claims[..n]) + (if claims[n].verified then [claims[n]] else [])
  }

  /** Insertion by id; equal ids keep their order. */
  function Insert(c: Claim, sorted: seq<Claim>): seq<Claim> {
    if sorted == [] || c.id < sorted[0].id then [c] + sorted
    else [sorted[0]] + Insert(c, sorted[1..])
  }

  /** The library sort of the source, by id. */
  function SortById(claims: seq<Claim>): seq<Claim> {
    if claims == [] then []
    else Insert(claims[|claims| - 1], SortById(claims[..|claims| - 1]))
  }

  /** The pairs of `a` with the candidates among `rest`. */
  function PairsWith(a: Claim, rest: seq<Claim>): seq<(Claim, Claim)> {
    if rest == [] then []
    else
      var n := |rest| - 1;
      PairsWith(a, rest[..n]) + (if IsCandidate(a.tokens, rest[n].tokens) then [(a, rest[n])] else [])
  }

  function PairsFrom(sorted: seq<Claim>): seq<(Claim, Claim)> {
    if sorted == [] then [] else PairsWith(sorted[0], sorted[1..]) + PairsFrom(sorted[1..])
  }

  function CandidatesOf(claims: seq<Claim>): seq<(Claim, Claim)> {
    PairsFrom(SortById(VerifiedOnly(claims)))
  }

  /** The inner loop of `candidate_pairs`. */
  method PairWithLater(a: Claim, rest: seq<Claim>) returns (pairs: seq<(Claim, Claim)>)
    ensures pairs == PairsWith(a, rest)
  {
    pairs := [];
    for j := 0 to |rest|
      invariant pairs == PairsWith(a, rest[..j])
    {
      assert rest[..j + 1][..j] == rest[..j];
      if IsCandidate(a.tokens, rest[j].tokens) {
        pairs := pairs + [(a, rest[j])];
      }
    }
    assert rest[..|rest|] == rest;
  }

  /** `candidate_pairs`: every claim against the later ones in id order. */
  method CandidatePairs(claims: seq<Claim>) returns (pairs: seq<(Claim, Claim)>)
    ensures pairs == CandidatesOf(claims)
  {
    var verified := SortById(VerifiedOnly(claims));
    pairs := [];
    for index := 0 to |verified|
      invariant pairs + PairsFrom(verified[index..]) == PairsFrom(verified)
    {
      var more := PairWithLater(verified[index], verified[index + 1..]);
      assert verified[index..][1..] == verified[index + 1..];
      pairs := pairs + more;
    }
  }

  predicate Sorted(claims: seq<Claim>) {
    forall i, j | 0 <= i < j < |claims| :: claims[i].id <= claims[j].id
  }

  predicate DistinctIds(claims: seq<Claim>) {
    forall i, j | 0 <= i < j < |claims| :: claims[i].id != claims[j].id
  }

  lemma {:induction false} InsertAdds(c: Claim, sorted: seq<Claim>)
    ensures multiset(Insert(c, sorted)) == multiset(sorted) + multiset{c}
  {
    if sorted != [] {
      assert sorted == [sorted[0]] + sorted[1..];
      InsertAdds(c, sorted[1..]);
    }
  }

  lemma {:induction false} InsertSorts(c: Claim, sorted: seq<Claim>)
    requires Sorted(sorted)
    ensures Sorted(Insert(c, sorted))
  {
    if sorted != [] && c.id >= sorted[0].id {
      InsertSorts(c, sorted[1..]);
      InsertAdds(c, sorted[1..]);
      forall x | x in Insert(c, sorted[1..]) ensures sorted[0].id <= x.id {
        assert x in multiset(Insert(c, sorted[1..]));
        assert x == c || x in sorted[1..];
      }
    }
  }

  lemma {:induction false} SortOrders(claims: seq<Claim>)
    ensures Sorted(SortById(claims))
  {
    if claims != [] {
      SortOrders(claims[..|claims| - 1]);
      InsertSorts(claims[|claims| - 1], SortById(claims[..|claims| - 1]));
    }
  }

  lemma {:induction false} SortKeeps(claims: seq<Claim>)
    ensures multiset(SortById(claims)) == multiset(claims)
  {
    if claims != [] {
      var n := |claims| - 1;
      SortKeeps(claims[..n]);
      InsertAdds(claims[n], SortById(claims[..n]));
      assert claims == claims[..n] + [claims[n]];
    }
  }

  lemma SortSorts(claims: seq<Claim>)
    ensures Sorted(SortById(claims)) && multiset(SortById(claims)) == multiset(claims)
  {
    SortOrders(claims);
    SortKeeps(claims);
  }

  lemma {:induction false} VerifiedOnlyAre(claims: seq<Claim>)
    ensures forall c :: c in VerifiedOnly(claims) <==> c in claims && c.verified
    ensures DistinctIds(claims) ==> DistinctIds(VerifiedOnly(claims))
  {
    if claims != [] {
      var n := |claims| - 1;
      VerifiedOnlyAre(claims[..n]);
      var before, all := VerifiedOnly(claims[..n]), VerifiedOnly(claims);
      assert claims == claims[..n] + [claims[n]];
      if DistinctIds(claims) {
        forall i | 0 <= i < |before| ensures before[i].id != claims[n].id {
          assert before[i] in before;
        }
      }
    }
  }

  lemma SameFirst(a: seq<Claim>, b: seq<Claim>)
    requires Sorted(a) && Sorted(b) && DistinctIds(a) && multiset(a) == multiset(b)
    ensures |a| == |b|
    ensures a != [] ==> a[0] == b[0]
  {
    assert |multiset(a)| == |a| && |multiset(b)| == |b|;
    if a != [] {
      assert a[0] in multiset(b) && b[0] in multiset(a);
      var i :| 0 <= i < |a| && a[i] == b[0];
      var j :| 0 <= j < |b| && b[j] == a[0];
      assert a[0].id <= a[i].id && b[0].id <= b[j].id;
    }
  }

  lemma RestOf(a: seq<Claim>)
    requires a != []
    ensures multiset(a[1..]) == multiset(a) - multiset{a[0]}
  {
    assert a == [a[0]] + a[1..];
  }

  /** Sorted claims with distinct ids are determined by which claims they are. */
  lemma {:induction false} SortedUnique(a: seq<Claim>, b: seq<Claim>)
    requires Sorted(a) && Sorted(b) && DistinctIds(a) && multiset(a) == multiset(b)
    ensures a == b
  {
    SameFirst(a, b);
    if a != [] {
      var front, aRest, bRest := a[0], a[1..], b[1..];
      RestOf(a);
      RestOf(b);
      assert a == [front] + aRest && b == [front] + bRest;
      SortedUnique(aRest, bRest);
    }
  }

  lemma {:induction false} VerifiedCounts(claims: seq<Claim>, c: Claim)
    ensures multiset(VerifiedOnly(claims))[c] == if c.verified then multiset(claims)[c] else 0
  {
    if claims != [] {
      var n := |claims| - 1;
      VerifiedCounts(claims[..n], c);
      assert claims == claims[..n] + [claims[n]];
    }
  }

  lemma DistinctSize(a: seq<Claim>, b: seq<Claim>)
    requires multiset(a) == multiset(b) && DistinctIds(a)
    ensures DistinctIds(b)
  {
    forall i, j | 0 <= i < j < |b| ensures b[i].id != b[j].id {
      assert b[i] in multiset(a) && b[j] in multiset(a);
      var x :| 0 <= x < |a| && a[x] == b[i];
      var y :| 0 <= y < |a| && a[y] == b[j];
      if x == y {
        TwiceCounts(b, i, j);
        OnceCounts(a, x);
      }
    }
  }

  lemma TwiceCounts(s: seq<Claim>, i: nat, j: nat)
    requires i < j < |s| && s[i] == s[j]
    ensures multiset(s)[s[i]] >= 2
  {
    assert s == s[..j] + [s[j]] + s[j + 1..];
    assert s[i] in s[..j];
  }

  lemma OnceCounts(s: seq<Claim>, i: nat)
    requires i < |s| && DistinctIds(s)
    ensures multiset(s)[s[i]] == 1
  {
    assert s == s[..i] + [s[i]] + s[i + 1..];
    assert s[i] !in s[..i] && s[i] !in s[i + 1..];
  }

  /** The result does not depend on the order of the input. */
  lemma OrderIndependent(claims: seq<Claim>, others: seq<Claim>)
    requires DistinctIds(claims) && multiset(claims) == multiset(others)
    ensures CandidatesOf(claims) == CandidatesOf(others)
  {
    var a, b := VerifiedOnly(claims), VerifiedOnly(others);
    VerifiedOnlyAre(claims);
    forall c ensures multiset(a)[c] == multiset(b)[c] {
      VerifiedCounts(claims, c);
      VerifiedCounts(others, c);
    }
    assert multiset(a) == multiset(b);
    SortSorts(a);
    SortSorts(b);
    DistinctSize(a, SortById(a));
    SortedUnique(SortById(a), SortById(b));
  }

  lemma {:induction false} PairsWithAre(a: Claim, rest: seq<Claim>)
    ensures forall p :: p in PairsWith(a, rest) <==> p.0 == a && p.1 in rest && IsCandidate(a.tokens, p.1.tokens)
    ensures DistinctIds(rest) ==> NoDup(PairsWith(a, rest))
  {
    if rest != [] {
      var n := |rest| - 1;
      PairsWithAre(a, rest[..n]);
      assert rest == rest[..n] + [rest[n]];
      var before := PairsWith(a, rest[..n]);
      if DistinctIds(rest) {
        forall i | 0 <= i < |before| ensures before[i] != (a, rest[n]) {
          assert before[i] in before;
        }
      }
    }
  }

  lemma HeadBelow(sorted: seq<Claim>)
    requires sorted != [] && Sorted(sorted) && DistinctIds(sorted)
    ensures forall c | c in sorted[1..] :: sorted[0].id < c.id
    ensures Sorted(sorted[1..]) && DistinctIds(sorted[1..])
  {
    var rest := sorted[1..];
    assert forall k | 0 <= k < |rest| :: rest[k] == sorted[k + 1];
  }

  lemma {:induction false} PairsFromAre(sorted: seq<Claim>)
    requires Sorted(sorted) && DistinctIds(sorted)
    ensures forall p :: p in PairsFrom(sorted) <==>
              p.0 in sorted && p.1 in sorted && p.0.id < p.1.id && IsCandidate(p.0.tokens, p.1.tokens)
    ensures NoDup(PairsFrom(sorted))
  {
    if sorted != [] {
      var a, rest := sorted[0], sorted[1..];
      HeadBelow(sorted);
      assert sorted == [a] + rest;
      PairsFromAre(rest);
      PairsWithAre(a, rest);
      var first, later := PairsWith(a, rest), PairsFrom(rest);
      forall i, j | 0 <= i < |first| && 0 <= j < |later| ensures first[i] != later[j] {
        assert first[i] in first && later[j] in later;
      }
    }
  }

  /**
   Each unordered pair of distinct verified claims that meets the test comes out once, lower id first;
   nothing else does.
   */
  lemma EachPairOnce(claims: seq<Claim>)
    requires DistinctIds(claims)
    ensures NoDup(CandidatesOf(claims))
    ensures forall p :: p in CandidatesOf(claims) <==>
              && p.0 in claims && p.1 in claims && p.0.verified && p.1.verified
              && p.0.id < p.1.id && IsCandidate(p.0.tokens, p.1.tokens)
  {
    var a := VerifiedOnly(claims);
    VerifiedOnlyAre(claims);
    SortSorts(a);
    DistinctSize(a, SortById(a));
    PairsFromAre(SortById(a));
    forall c ensures c in SortById(a) <==> c in claims && c.verified {
      assert c in SortById(a) <==> c in multiset(SortById(a));
      assert c in a <==> c in multiset(a);
    }
  }

  /** In the order of the lower id and then of the higher one, which decides who is among the first. */
  predicate Before(p: (Claim, Claim), q: (Claim, Claim)) {
    p.0.id < q.0.id || (p.0.id == q.0.id && p.1.id < q.1.id)
  }

  predicate InOrder(pairs: seq<(Claim, Claim)>) {
    forall i, j | 0 <= i < j < |pairs| :: Before(pairs[i], pairs[j])
  }

  lemma {:induction false} PairsWithOrder(a: Claim, rest: seq<Claim>)
    requires Sorted(rest) && DistinctIds(rest)
    ensures InOrder(PairsWith(a, rest))
  {
    if rest != [] {
      var n := |rest| - 1;
      var before := PairsWith(a, rest[..n]);
      PairsWithOrder(a, rest[..n]);
      PairsWithAre(a, rest[..n]);
      forall i | 0 <= i < |before| ensures before[i].0 == a && before[i].1.id < rest[n].id {
        assert before[i] in before;
        var k :| 0 <= k < n && rest[..n][k] == before[i].1;
        assert rest[k].id <= rest[n].id && rest[k].id != rest[n].id;
      }
    }
  }

  lemma {:induction false} PairsFromOrder(sorted: seq<Claim>)
    requires Sorted(sorted) && DistinctIds(sorted)
    ensures InOrder(PairsFrom(sorted))
  {
    if sorted != [] {
      var a, rest := sorted[0], sorted[1..];
      HeadBelow(sorted);
      PairsFromOrder(rest);
      PairsWithOrder(a, rest);
      PairsWithAre(a, rest);
      PairsFromAre(rest);
      var first, later := PairsWith(a, rest), PairsFrom(rest);
      forall i, j | 0 <= i < |first| && 0 <= j < |later| ensures Before(first[i], later[j]) {
        assert first[i] in first && later[j] in later && later[j].0 in rest;
      }
    }
  }

  /** The candidates come in the order of their ids, whatever the order of the input. */
  lemma CandidatesInOrder(claims: seq<Claim>)
    requires DistinctIds(claims)
    ensures InOrder(CandidatesOf(claims))
  {
    SortSorts(VerifiedOnly(claims));
    VerifiedOnlyAre(claims);
    DistinctSize(VerifiedOnly(claims), SortById(VerifiedOnly(claims)));
    PairsFromOrder(SortById(VerifiedOnly(claims)));
  }

  /** Both tests with their ratios as numbers: 0.15 of the union, 0.4 of each set. */
  lemma ThresholdsAre(a: set<string>, b: set<string>)
    ensures IsCandidate(a, b) <==>
              || (exists w :: w in NEGATION_MARKERS && (w in a || w in b))
              || (a + b != {} && |a * b| as real >= 0.15 * |a + b| as real)
    ensures NegationSignal(a, b) <==>
              && a != {} && b != {}
              && |a * b| as real >= 0.4 * |a| as real && |a * b| as real >= 0.4 * |b| as real
              && ((exists w :: w in NEGATION_MARKERS && w in a) <==> !exists w :: w in NEGATION_MARKERS && w in b)
  {
    MarkerIff(a);
    MarkerIff(b);
  }

  lemma MarkerIff(tokens: set<string>)
    ensures HasMarker(tokens) <==> exists w :: w in NEGATION_MARKERS && w in tokens
  {
    if HasMarker(tokens) {
      var w :| w in tokens * NEGATION_MARKERS;
    }
    if w :| w in NEGATION_MARKERS && w in tokens {
      assert w in tokens * NEGATION_MARKERS;
    }
  }
}
