// How close a predicted order is to the reference order (app/core/utils.py,
// ranking_similarity), with Kendall's tau defined by counting pairs.
module Ranking {
  import opened Prelude

  // -- completing a partial order -------------------------------------------------------------

  /** The reference ids the prediction left out, in reference order. */
  function Missing(gold: seq<string>, predicted: seq<string>): seq<string> {
    if gold == [] then []
    else (if gold[0] in predicted then [] else [gold[0]]) + Missing(gold[1..], predicted)
  }

  function Completed(predicted: seq<string>, gold: seq<string>): seq<string> {
    predicted + Missing(gold, predicted)
  }

  /** The completed order without ids the reference does not know. */
  function Known(order: seq<string>, gold: seq<string>): (r: seq<string>)
    ensures forall id :: id in r ==> id in gold
  {
    if order == [] then []
    else (if order[0] in gold then [order[0]] else []) + Known(order[1..], gold)
  }

  /** Position in the reference; the last one wins, as in a dict built from it. */
  function IndexOf(gold: seq<string>, id: string): (i: nat)
    requires id in gold
    ensures i < |gold| && gold[i] == id
  {
    var n := |gold| - 1;
    if gold[n] == id then n else IndexOf(gold[..n], id)
  }

  function Positions(order: seq<string>, gold: seq<string>): (ps: seq<int>)
    requires forall id :: id in order ==> id in gold
    ensures |ps| == |order|
    ensures forall i :: 0 <= i < |ps| ==> 0 <= ps[i] < |gold| && gold[ps[i]] == order[i]
  {
    seq(|order|, i requires 0 <= i < |order| => assert order[i] in order; IndexOf(gold, order[i]))
  }

  function PredictedPositions(predicted: seq<string>, gold: seq<string>): seq<int> {
    Positions(Known(Completed(predicted, gold), gold), gold)
  }

  // -- Kendall's tau ----------------------------------------------------------------------------

  function Sign(x: int): int { if x > 0 then 1 else if x < 0 then -1 else 0 }

  /** Agreement of the last pair of coordinates with every earlier one. */
  function LastScore(x: seq<int>, y: seq<int>, a: int, b: int): int
    requires |x| == |y|
  {
    if x == [] then 0
    else
      var n := |x| - 1;
      LastScore(x[..n], y[..n], a, b) + Sign(a - x[n]) * Sign(b - y[n])
  }

  /** Concordant minus discordant pairs. */
  function PairScore(x: seq<int>, y: seq<int>): int
    requires |x| == |y|
  {
    if x == [] then 0
    else
      var n := |x| - 1;
      PairScore(x[..n], y[..n]) + LastScore(x[..n], y[..n], x[n], y[n])
  }

  function Pairs(n: nat): nat { n * (n - 1) / 2 }

  /** Without ties. */
  function Tau(x: seq<int>, y: seq<int>): real
    requires |x| == |y| >= 2
  {
    assert |x| * (|x| - 1) >= 2;
    PairScore(x, y) as real / Pairs(|x|) as real
  }

  function Clip(v: real): real { if v < 0.0 then 0.0 else if v > 1.0 then 1.0 else v }

  function Identity(n: nat): seq<int> { seq(n, i => i) }

  /** Two orders of different length cannot be correlated: a ValueError. */
  datatype LengthMismatch = LengthMismatch

  /** Zero for an empty prediction or fewer than two ids to compare. */
  function Similarity(predicted: seq<string>, gold: seq<string>): Result<real, LengthMismatch>
    requires NoDuplicates(gold)
  {
    if predicted == [] then Ok(0.0)
    else
      var p := PredictedPositions(predicted, gold);
      if |p| < 2 then Ok(0.0)
      else if |p| != |gold| then Err(LengthMismatch)
      else Ok(Clip((Tau(p, Identity(|gold|)) + 1.0) / 2.0))
  }

  // -- the completed order is a permutation -------------------------------------------------------

  lemma {:induction false} MissingMembers(gold: seq<string>, predicted: seq<string>)
    requires NoDuplicates(gold)
    ensures NoDuplicates(Missing(gold, predicted))
    ensures forall id :: id in Missing(gold, predicted) <==> id in gold && id !in predicted
  {
    if gold != [] {
      MissingMembers(gold[1..], predicted);
    }
  }

  lemma {:induction false} KnownMembers(order: seq<string>, gold: seq<string>)
    requires NoDuplicates(order)
    ensures NoDuplicates(Known(order, gold))
    ensures forall id :: id in Known(order, gold) <==> id in order && id in gold
  {
    if order != [] {
      KnownMembers(order[1..], gold);
    }
  }

  function Elements<T>(s: seq<T>): set<T> { set x | x in s }

  lemma {:induction false} DistinctCount<T>(s: seq<T>)
    requires NoDuplicates(s)
    ensures |Elements(s)| == |s|
  {
    if s != [] {
      DistinctCount(s[1..]);
      assert Elements(s) == {s[0]} + Elements(s[1..]);
      assert s[0] !in s[1..];
    }
  }

  /** Every reference id, once. */
  ghost predicate PermutationOf(s: seq<string>, gold: seq<string>) {
    NoDuplicates(s) && |s| == |gold| && Elements(s) == Elements(gold)
  }

  /** Completing and filtering a prediction orders exactly the reference ids. */
  lemma CompletedIsPermutation(predicted: seq<string>, gold: seq<string>)
    requires NoDuplicates(predicted) && NoDuplicates(gold)
    ensures PermutationOf(Known(Completed(predicted, gold), gold), gold)
    ensures NoDuplicates(PredictedPositions(predicted, gold)) && |PredictedPositions(predicted, gold)| == |gold|
    ensures forall k :: 0 <= k < |gold| ==> 0 <= PredictedPositions(predicted, gold)[k] < |gold|
  {
    MissingMembers(gold, predicted);
    var order := Completed(predicted, gold);
    assert NoDuplicates(order) by {
      var missing := Missing(gold, predicted);
      forall i, j | 0 <= i < j < |order| ensures order[i] != order[j] {
        if i < |predicted| <= j {
          assert order[j] == missing[j - |predicted|] && order[j] in missing;
        }
      }
    }
    KnownMembers(order, gold);
    var known := Known(order, gold);
    assert Elements(known) == Elements(gold);
    DistinctCount(known);
    DistinctCount(gold);
    var p := PredictedPositions(predicted, gold);
    assert forall i, j :: 0 <= i < j < |p| && p[i] == p[j] ==> known[i] == known[j];
  }

  // -- inversions ---------------------------------------------------------------------------------

  function InversionsWith(x: seq<int>, a: int): nat {
    if x == [] then 0 else InversionsWith(x[..|x| - 1], a) + if x[|x| - 1] > a then 1 else 0
  }

  /** Pairs out of order. */
  function Inversions(x: seq<int>): nat {
    if x == [] then 0
    else Inversions(x[..|x| - 1]) + InversionsWith(x[..|x| - 1], x[|x| - 1])
  }

  lemma {:induction false} LastScoreIsInversions(x: seq<int>, a: int)
    requires a !in x
    ensures LastScore(x, Identity(|x|), a, |x|) == |x| - 2 * InversionsWith(x, a)
  {
    LastScoreAgainst(x, a, |x|);
  }

  lemma {:induction false} LastScoreAgainst(x: seq<int>, a: int, b: nat)
    requires a !in x && |x| <= b
    ensures LastScore(x, Identity(|x|), a, b) == |x| - 2 * InversionsWith(x, a)
  {
    if x != [] {
      var n := |x| - 1;
      LastScoreAgainst(x[..n], a, b);
      assert Identity(|x|)[..n] == Identity(n);
      assert x[n] in x;
    }
  }

  lemma PairsGrow(n: nat)
    ensures Pairs(n + 1) == Pairs(n) + n
  {
    assert (n + 1) * n == n * (n - 1) + 2 * n;
  }

  lemma {:induction false} ScoreIsInversions(x: seq<int>)
    requires NoDuplicates(x)
    ensures PairScore(x, Identity(|x|)) == Pairs(|x|) - 2 * Inversions(x)
  {
    if x != [] {
      var n := |x| - 1;
      ScoreIsInversions(x[..n]);
      assert Identity(|x|)[..n] == Identity(n);
      assert x[n] !in x[..n];
      LastScoreIsInversions(x[..n], x[n]);
      PairsGrow(n);
    }
  }

  lemma {:induction false} InversionsWithBounds(x: seq<int>, a: int)
    ensures InversionsWith(x, a) <= |x|
    ensures InversionsWith(x, a) == 0 <==> forall i :: 0 <= i < |x| ==> x[i] <= a
    ensures InversionsWith(x, a) == |x| <==> forall i :: 0 <= i < |x| ==> x[i] > a
  {
    if x != [] {
      InversionsWithBounds(x[..|x| - 1], a);
      assert forall i :: 0 <= i < |x| - 1 ==> x[..|x| - 1][i] == x[i];
    }
  }

  ghost predicate Rising(x: seq<int>) { forall i, j :: 0 <= i < j < |x| ==> x[i] < x[j] }
  ghost predicate Falling(x: seq<int>) { forall i, j :: 0 <= i < j < |x| ==> x[i] > x[j] }

  lemma RisingSnoc(x: seq<int>)
    requires NoDuplicates(x) && x != []
    ensures var init, a := x[..|x| - 1], x[|x| - 1];
      && (Rising(x) <==> Rising(init) && forall i :: 0 <= i < |init| ==> init[i] <= a)
      && (Falling(x) <==> Falling(init) && forall i :: 0 <= i < |init| ==> init[i] > a)
  {
    var init, a := x[..|x| - 1], x[|x| - 1];
    assert forall i :: 0 <= i < |init| ==> init[i] == x[i] && x[i] != a;
  }

  /** No inversions means rising, all of them means falling. */
  lemma {:induction false} InversionsBounds(x: seq<int>)
    requires NoDuplicates(x)
    ensures Inversions(x) <= Pairs(|x|)
    ensures Inversions(x) == 0 <==> Rising(x)
    ensures Inversions(x) == Pairs(|x|) <==> Falling(x)
  {
    if x != [] {
      var n := |x| - 1;
      var init := x[..n];
      InversionsBounds(init);
      InversionsWithBounds(init, x[n]);
      PairsGrow(n);
      RisingSnoc(x);
    }
  }

  lemma {:induction false} RisingAtLeast(x: seq<int>, k: nat)
    requires Rising(x) && k < |x| && forall i :: 0 <= i < |x| ==> 0 <= x[i] < |x|
    ensures x[k] >= k && x[|x| - 1 - k] <= |x| - 1 - k
  {
    if k > 0 {
      RisingAtLeast(x, k - 1);
      assert x[k - 1] < x[k] && x[|x| - 1 - k] < x[|x| - k];
    }
  }

  lemma {:induction false} FallingAtMost(x: seq<int>, k: nat)
    requires Falling(x) && k < |x| && forall i :: 0 <= i < |x| ==> 0 <= x[i] < |x|
    ensures x[k] <= |x| - 1 - k && x[|x| - 1 - k] >= k
  {
    if k > 0 {
      FallingAtMost(x, k - 1);
      assert x[k - 1] > x[k] && x[|x| - 1 - k] > x[|x| - k];
    }
  }

  // -- what the similarity means --------------------------------------------------------------------

  function Reverse(s: seq<string>): seq<string> { seq(|s|, i requires 0 <= i < |s| => s[|s| - 1 - i]) }

  /**
   * For a non-empty prediction and at least two reference ids, none repeated, the
   * similarity is one minus the share of pairs out of order.
   */
  lemma SimilarityIsInversionShare(predicted: seq<string>, gold: seq<string>)
    requires NoDuplicates(predicted) && NoDuplicates(gold) && predicted != [] && |gold| >= 2
    ensures Pairs(|gold|) > 0
    ensures Similarity(predicted, gold) ==
      Ok(1.0 - Inversions(PredictedPositions(predicted, gold)) as real / Pairs(|gold|) as real)
    ensures 0.0 <= Similarity(predicted, gold).value <= 1.0
  {
    CompletedIsPermutation(predicted, gold);
    var p := PredictedPositions(predicted, gold);
    ScoreIsInversions(p);
    InversionsBounds(p);
    assert |gold| * (|gold| - 1) >= 2;
    ShareArithmetic(Inversions(p), Pairs(|gold|));
  }

  lemma ShareIsExact(i: real, n: real)
    requires 0.0 <= i <= n && n > 0.0
    ensures (n - 2.0 * i) / n == 1.0 - 2.0 * (i / n)
    ensures 0.0 <= i / n <= 1.0 && (i / n == 0.0 <==> i == 0.0) && (i / n == 1.0 <==> i == n)
  {
    var share, rest := i / n, (n - 2.0 * i) / n;
    assert share * n == i && rest * n == n - 2.0 * i;
    assert (1.0 - 2.0 * share) * n == n - 2.0 * (share * n);
    Cancel(rest, 1.0 - 2.0 * share, n);
    Cancel(share, 0.0, n);
    Cancel(share, 1.0, n);
  }

  lemma Cancel(a: real, b: real, n: real)
    requires n > 0.0
    ensures a * n <= b * n <==> a <= b
    ensures a * n == b * n <==> a == b
  {
    assert (b - a) * n == b * n - a * n;
  }

  lemma ShareArithmetic(inversions: nat, pairs: nat)
    requires pairs > 0 && inversions <= pairs
    ensures ((pairs - 2 * inversions) as real / pairs as real + 1.0) / 2.0 == 1.0 - inversions as real / pairs as real
    ensures 0.0 <= inversions as real / pairs as real <= 1.0
    ensures inversions as real / pairs as real == 0.0 <==> inversions == 0
    ensures inversions as real / pairs as real == 1.0 <==> inversions == pairs
  {
    ShareIsExact(inversions as real, pairs as real);
    assert (pairs - 2 * inversions) as real == pairs as real - 2.0 * (inversions as real);
  }

  /** It is 1 exactly for the reference order and 0 exactly for its reverse. */
  lemma SimilarityExtremes(predicted: seq<string>, gold: seq<string>)
    requires NoDuplicates(predicted) && NoDuplicates(gold) && predicted != [] && |gold| >= 2
    ensures Similarity(predicted, gold) == Ok(1.0) <==> Known(Completed(predicted, gold), gold) == gold
    ensures Similarity(predicted, gold) == Ok(0.0) <==> Known(Completed(predicted, gold), gold) == Reverse(gold)
  {
    SimilarityIsInversionShare(predicted, gold);
    CompletedIsPermutation(predicted, gold);
    var known, p := Known(Completed(predicted, gold), gold), PredictedPositions(predicted, gold);
    InversionsBounds(p);
    ShareArithmetic(Inversions(p), Pairs(|gold|));
    RisingIsGold(known, gold, p);
    FallingIsReverse(known, gold, p);
  }

  lemma RisingIsGold(known: seq<string>, gold: seq<string>, p: seq<int>)
    requires NoDuplicates(gold) && |known| == |gold| == |p|
    requires forall i :: 0 <= i < |p| ==> 0 <= p[i] < |p| && gold[p[i]] == known[i]
    ensures Rising(p) <==> known == gold
  {
    if Rising(p) {
      forall i | 0 <= i < |p| ensures known[i] == gold[i] {
        RisingAtLeast(p, i);
        RisingAtLeast(p, |p| - 1 - i);
      }
    }
    if known == gold {
      assert forall i :: 0 <= i < |p| ==> p[i] == i;
    }
  }

  lemma FallingIsReverse(known: seq<string>, gold: seq<string>, p: seq<int>)
    requires NoDuplicates(gold) && |known| == |gold| == |p|
    requires forall i :: 0 <= i < |p| ==> 0 <= p[i] < |p| && gold[p[i]] == known[i]
    ensures Falling(p) <==> known == Reverse(gold)
  {
    if Falling(p) {
      forall i | 0 <= i < |p| ensures known[i] == Reverse(gold)[i] {
        FallingAtMost(p, i);
        FallingAtMost(p, |p| - 1 - i);
      }
    }
    if known == Reverse(gold) {
      assert forall i :: 0 <= i < |p| ==> gold[p[i]] == gold[|p| - 1 - i];
    }
  }
}
