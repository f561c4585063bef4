/**
  The "key drivers" explanation of a risk assessment: per-feature weights taken from
  whatever the trained model exposes, paired with the features' display names, sorted
  by weight from largest to smallest (a stable sort, so equal weights keep the feature
  order) and cut to the top five.
 */
module Explanation {
  import opened Wrappers
  import Multisets
  import opened RealArith

  /** Display names of the 13 features, in the classifier's feature order. */
  const FeatureNames: seq<string> :=
    ["Age", "Sex", "CP", "BP", "Chol", "Fasting Sugar", "ECG", "Heart Rate",
     "Exercise Angina", "Peak", "Slope", "CA", "Thal"]

  /** How many drivers are shown. */
  const TopK: nat := 5

  /** The weight given to every feature when the model explains nothing. */
  const FallbackWeight: real := 0.1

  /** What the inner model of the pipeline exposes: a tree ensemble's feature
      importances, a linear model's first row of coefficients, or neither. */
  datatype Capability =
    | TreeImportances(importances: seq<real>)
    | LinearCoefficients(coefficients: seq<real>)
    | NoExplanation

  /** One (feature, weight) pair; `feature` is the feature's position in the
      classifier's order, which is what a stable sort preserves among equal weights. */
  datatype Driver = Driver(feature: nat, name: string, weight: real)

  /** The top drivers, or, when the weights are not numbers (a linear model whose
      coefficients are all zero divides zero by zero), the names that come first:
      NaN keys never compare less, so the stable sort leaves the pairs in order. */
  datatype Ranking =
    | Drivers(drivers: seq<Driver>)
    | Unweighted(names: seq<string>)

  function Abs(x: real): real
  {
    if x < 0.0 then -x else x
  }

  function Min(a: nat, b: nat): nat
  {
    if a <= b then a else b
  }

  function Sum(s: seq<real>): real
  {
    if s == [] then 0.0 else s[0] + Sum(s[1..])
  }

  function AbsAll(s: seq<real>): (r: seq<real>)
    ensures |r| == |s|
  {
    seq(|s|, i requires 0 <= i < |s| => Abs(s[i]))
  }

  /** Every element divided by `d`. */
  function Scale(s: seq<real>, d: real): (r: seq<real>)
    requires d != 0.0
    ensures |r| == |s|
  {
    seq(|s|, i requires 0 <= i < |s| => s[i] / d)
  }

  ghost predicate NonNegative(s: seq<real>)
  {
    forall i :: 0 <= i < |s| ==> 0.0 <= s[i]
  }

  /** How many weights the model reports. */
  function RowLength(cap: Capability): nat
  {
    match cap
    case TreeImportances(imps) => |imps|
    case LinearCoefficients(coef) => |coef|
    case NoExplanation => 13
  }

  /** The per-feature weights the explanation ranks; `None` stands for the NaN
      weights of a non-empty linear model whose coefficients are all zero. An empty
      row of coefficients divides an empty array and gives no weights at all. */
  function Weights(cap: Capability): (w: Option<seq<real>>)
    ensures w.Some? ==> |w.value| == RowLength(cap)
    ensures w.None? ==> cap.LinearCoefficients? && |cap.coefficients| > 0
  {
    match cap
    case TreeImportances(imps) => Some(imps)
    case LinearCoefficients(coef) =>
      var a := AbsAll(coef);
      if coef == [] then Some([])
      else if Sum(a) == 0.0 then None
      else Some(Scale(a, Sum(a)))
    case NoExplanation => Some(seq(13, _ => FallbackWeight))
  }

  // ---------------------------------------------------------------------------
  // Sums

  lemma {:induction false} SumNonNegative(s: seq<real>)
    requires NonNegative(s)
    ensures Sum(s) >= 0.0
  {
    if s != [] {
      SumNonNegative(s[1..]);
    }
  }

  /** A non-negative element never exceeds the sum of non-negative elements. */
  lemma {:induction false} ElementAtMostSum(s: seq<real>, k: nat)
    requires NonNegative(s) && k < |s|
    ensures s[k] <= Sum(s)
  {
    SumNonNegative(s[1..]);
    if k > 0 {
      ElementAtMostSum(s[1..], k - 1);
    }
  }

  /** Non-negative elements sum to zero exactly when they are all zero. */
  lemma {:induction false} SumZeroIffAllZero(s: seq<real>)
    requires NonNegative(s)
    ensures Sum(s) == 0.0 <==> forall i :: 0 <= i < |s| ==> s[i] == 0.0
  {
    if s != [] {
      SumNonNegative(s[1..]);
      SumZeroIffAllZero(s[1..]);
      if Sum(s) == 0.0 {
        forall i | 0 <= i < |s| ensures s[i] == 0.0 {
          if i > 0 { assert s[i] == s[1..][i - 1]; }
        }
      }
    }
  }

  lemma {:induction false} SumScale(s: seq<real>, d: real)
    requires d != 0.0
    ensures Sum(Scale(s, d)) == Sum(s) / d
  {
    if s != [] {
      assert Scale(s, d)[1..] == Scale(s[1..], d);
      SumScale(s[1..], d);
      DivideSum(s[0], Sum(s[1..]), d);
    }
  }

  lemma {:induction false} SumConstant(n: nat, c: real)
    ensures Sum(seq(n, _ => c)) == n as real * c
  {
    if n > 0 {
      var s := seq(n, _ => c);
      assert s[1..] == seq(n - 1, _ => c);
      SumConstant(n - 1, c);
      assert Sum(s) == c + Sum(s[1..]);
    }
  }

  // ---------------------------------------------------------------------------
  // Weights

  /** A linear model's weights are the coefficients' magnitudes as shares of their
      total: each lies in [0, 1] and together they sum to 1. The weights are NaN
      (here `None`) exactly when there is a coefficient and every one is zero; an
      empty row gives an empty row of weights. */
  lemma LinearWeights(coef: seq<real>)
    ensures Weights(LinearCoefficients(coef)).None? <==>
      |coef| > 0 && forall i :: 0 <= i < |coef| ==> coef[i] == 0.0
    ensures coef == [] ==> Weights(LinearCoefficients(coef)) == Some([])
    ensures Weights(LinearCoefficients(coef)).Some? && |coef| > 0 ==>
      var w := Weights(LinearCoefficients(coef)).value;
      var total := Sum(AbsAll(coef));
      && |w| == |coef|
      && total > 0.0
      && (forall i :: 0 <= i < |w| ==> w[i] == Abs(coef[i]) / total && 0.0 <= w[i] <= 1.0)
      && Sum(w) == 1.0
  {
    var a := AbsAll(coef);
    AllZeroMagnitudes(coef);
    if coef != [] && Sum(a) != 0.0 {
      Normalised(a);
    }
  }

  lemma AllZeroMagnitudes(coef: seq<real>)
    ensures NonNegative(AbsAll(coef)) && Sum(AbsAll(coef)) >= 0.0
    ensures Sum(AbsAll(coef)) == 0.0 <==> forall i :: 0 <= i < |coef| ==> coef[i] == 0.0
  {
    var a := AbsAll(coef);
    assert NonNegative(a);
    SumNonNegative(a);
    SumZeroIffAllZero(a);
    forall i | 0 <= i < |coef| ensures a[i] == 0.0 <==> coef[i] == 0.0 {}
  }

  /** Dividing non-negative values by their positive total gives shares in [0, 1]
      that sum to 1. */
  lemma Normalised(a: seq<real>)
    requires NonNegative(a) && Sum(a) != 0.0
    ensures Sum(a) > 0.0
    ensures forall i :: 0 <= i < |a| ==> 0.0 <= Scale(a, Sum(a))[i] <= 1.0
    ensures Sum(Scale(a, Sum(a))) == 1.0
  {
    SumNonNegative(a);
    forall i | 0 <= i < |a|
      ensures 0.0 <= Scale(a, Sum(a))[i] <= 1.0
    {
      ShareInUnit(a, i);
    }
    SumScale(a, Sum(a));
    SelfDivide(Sum(a));
  }

  lemma ShareInUnit(a: seq<real>, i: nat)
    requires NonNegative(a) && Sum(a) > 0.0 && i < |a|
    ensures 0.0 <= Scale(a, Sum(a))[i] <= 1.0
  {
    ElementAtMostSum(a, i);
    FractionInUnit(a[i], Sum(a));
  }

  /** A tree model's importances are used exactly as the model reports them. */
  lemma TreeWeights(imps: seq<real>)
    ensures Weights(TreeImportances(imps)) == Some(imps)
  {
  }

  /** Without importances or coefficients every one of the 13 features weighs 0.1,
      so the weights add up to 1.3, not to 1. */
  lemma FallbackWeights()
    ensures Weights(NoExplanation).Some?
    ensures |Weights(NoExplanation).value| == 13
    ensures forall i :: 0 <= i < 13 ==> Weights(NoExplanation).value[i] == 0.1
    ensures Sum(Weights(NoExplanation).value) == 1.3
  {
    SumConstant(13, FallbackWeight);
  }

  // ---------------------------------------------------------------------------
  // Ranking

  /** Pairs each name with the weight at the same position, stopping at the shorter
      of the two sequences. */
  function Zip(names: seq<string>, weights: seq<real>): (z: seq<Driver>)
    ensures |z| == Min(|names|, |weights|)
    ensures FeaturesAscending(z)
    ensures forall i :: 0 <= i < |z| ==> z[i] == Driver(i, names[i], weights[i])
  {
    seq(Min(|names|, |weights|), i requires 0 <= i < Min(|names|, |weights|) => Driver(i, names[i], weights[i]))
  }

  ghost predicate NonIncreasing(s: seq<Driver>)
  {
    forall i, j :: 0 <= i < j < |s| ==> s[i].weight >= s[j].weight
  }

  /** `a` comes before `b` in a stable descending sort of a sequence in feature
      order: a larger weight first, and among equal weights the earlier feature. */
  ghost predicate Precedes(a: Driver, b: Driver)
  {
    a.weight > b.weight || (a.weight == b.weight && a.feature < b.feature)
  }

  ghost predicate Ranked(s: seq<Driver>)
  {
    forall i, j :: 0 <= i < j < |s| ==> Precedes(s[i], s[j])
  }

  ghost predicate FeaturesAscending(s: seq<Driver>)
  {
    forall i, j :: 0 <= i < j < |s| ==> s[i].feature < s[j].feature
  }

  /** The descending, stable counterpart of `Statistics.Insert`: inserts `x` into the
      sorted `s` in front of the first element it is not lighter than, so that `x`, which came before every element of `s` in the input, stays
      ahead of the elements of equal weight. */
  function Insert(x: Driver, s: seq<Driver>): (r: seq<Driver>)
    requires NonIncreasing(s)
    ensures NonIncreasing(r)
    ensures multiset(r) == multiset(s) + multiset{x}
    ensures |r| == |s| + 1
  {
    if s == [] || s[0].weight <= x.weight then
      ConsNonIncreasing(x, s);
      [x] + s
    else
      var rest := Insert(x, s[1..]);
      HeadNotLighter(x, s, rest);
      ConsNonIncreasing(s[0], rest);
      assert s == [s[0]] + s[1..];
      [s[0]] + rest
  }

  /** The head of `s` is at least as heavy as the lighter `x` and as the rest of `s`. */
  lemma HeadNotLighter(x: Driver, s: seq<Driver>, rest: seq<Driver>)
    requires NonIncreasing(s) && |s| > 0 && x.weight < s[0].weight
    requires multiset(rest) == multiset(s[1..]) + multiset{x}
    ensures forall k :: 0 <= k < |rest| ==> s[0].weight >= rest[k].weight
  {
    forall k | 0 <= k < |rest|
      ensures s[0].weight >= rest[k].weight
    {
      assert rest[k] in multiset(rest);
      if rest[k] != x {
        TailNotHeavier(s, rest[k]);
      }
    }
  }

  lemma TailNotHeavier(s: seq<Driver>, y: Driver)
    requires NonIncreasing(s) && |s| > 0 && y in multiset(s[1..])
    ensures y.weight <= s[0].weight
  {
    var i :| 0 <= i < |s| - 1 && s[1..][i] == y;
    assert s[i + 1] == y;
  }

  /** Putting a heaviest element in front keeps a sequence non-increasing. */
  lemma ConsNonIncreasing(h: Driver, t: seq<Driver>)
    requires NonIncreasing(t)
    requires forall k :: 0 <= k < |t| ==> h.weight >= t[k].weight
    ensures NonIncreasing([h] + t)
  {
  }

  /** Python's `sorted(..., key=weight, reverse=True)`: a stable sort from the
      largest weight down. */
  function SortDescending(s: seq<Driver>): (r: seq<Driver>)
    ensures NonIncreasing(r)
    ensures multiset(r) == multiset(s)
    ensures |r| == |s|
  {
    if s == [] then []
    else
      assert s == [s[0]] + s[1..];
      Insert(s[0], SortDescending(s[1..]))
  }

  lemma {:induction false} InsertRanked(x: Driver, s: seq<Driver>)
    requires NonIncreasing(s) && Ranked(s)
    requires forall y :: y in s ==> x.feature < y.feature
    ensures Ranked(Insert(x, s))
  {
    if s == [] || s[0].weight <= x.weight {
      forall k | 0 <= k < |s|
        ensures Precedes(x, s[k])
      {
        assert s[k] in s;
      }
      ConsRanked(x, s);
    } else {
      TailOrdered(s);
      assert forall y :: y in s[1..] ==> y in s;
      InsertRanked(x, s[1..]);
      var rest := Insert(x, s[1..]);
      forall k | 0 <= k < |rest|
        ensures Precedes(s[0], rest[k])
      {
        assert rest[k] in multiset(rest);
        if rest[k] != x {
          TailPreceded(s, rest[k]);
        }
      }
      ConsRanked(s[0], rest);
    }
  }

  lemma TailOrdered(s: seq<Driver>)
    requires NonIncreasing(s) && Ranked(s) && |s| > 0
    ensures NonIncreasing(s[1..]) && Ranked(s[1..])
  {
  }

  lemma TailPreceded(s: seq<Driver>, y: Driver)
    requires Ranked(s) && |s| > 0 && y in multiset(s[1..])
    ensures Precedes(s[0], y)
  {
    var i :| 0 <= i < |s| - 1 && s[1..][i] == y;
    assert s[i + 1] == y;
  }

  lemma ConsRanked(h: Driver, t: seq<Driver>)
    requires Ranked(t)
    requires forall k :: 0 <= k < |t| ==> Precedes(h, t[k])
    ensures Ranked([h] + t)
  {
  }

  /** Stability: sorting pairs given in feature order ranks equal weights by feature. */
  lemma {:induction false} SortDescendingRanked(s: seq<Driver>)
    requires FeaturesAscending(s)
    ensures Ranked(SortDescending(s))
  {
    if s != [] {
      assert s == [s[0]] + s[1..];
      var rest := SortDescending(s[1..]);
      SortDescendingRanked(s[1..]);
      forall y | y in rest
        ensures s[0].feature < y.feature
      {
        assert y in multiset(s[1..]);
      }
      InsertRanked(s[0], rest);
    }
  }

  /** The number of entries a ranking shows. */
  function Shown(r: Ranking): nat
  {
    match r
    case Drivers(ds) => |ds|
    case Unweighted(names) => |names|
  }

  /** The explanation stored for the dashboard: the five heaviest (name, weight)
      pairs, heaviest first. */
  function Explain(cap: Capability): (r: Ranking)
    ensures r.Drivers? <==> Weights(cap).Some?
    ensures Shown(r) == Min(TopK, Min(|FeatureNames|, RowLength(cap)))
  {
    match Weights(cap)
    case None => Unweighted(FeatureNames[..Min(TopK, Min(|FeatureNames|, RowLength(cap)))])
    case Some(w) =>
      var sorted := SortDescending(Zip(FeatureNames, w));
      Drivers(sorted[..Min(TopK, |sorted|)])
  }

  /** The top-five explanation: it has min(5, number of pairs) entries, all taken from
      the zipped pairs; they are ranked by weight with ties in feature order; and no
      dropped pair outweighs a kept one. */
  lemma ExplainTopK(cap: Capability)
    requires Weights(cap).Some?
    ensures Explain(cap).Drivers?
    ensures
      var z := Zip(FeatureNames, Weights(cap).value);
      var r := Explain(cap).drivers;
      && |r| == Min(TopK, |z|)
      && multiset(r) <= multiset(z)
      && NonIncreasing(r)
      && Ranked(r)
      && (forall d, e :: d in z && d !in r && e in r ==> d.weight <= e.weight)
  {
    var z := Zip(FeatureNames, Weights(cap).value);
    TopOfSorted(z, TopK);
  }

  lemma TopOfSorted(z: seq<Driver>, n: nat)
    requires FeaturesAscending(z)
    ensures
      var sorted := SortDescending(z);
      var r := sorted[..Min(n, |sorted|)];
      && |r| == Min(n, |z|)
      && multiset(r) <= multiset(z)
      && NonIncreasing(r)
      && Ranked(r)
      && (forall d, e :: d in z && d !in r && e in r ==> d.weight <= e.weight)
  {
    var sorted := SortDescending(z);
    SortDescendingRanked(z);
    var k := Min(n, |sorted|);
    PrefixOf(sorted, k);
    DroppedNotHeavier(sorted, z, k);
    RankedPrefix(sorted, k);
  }

  lemma RankedPrefix(s: seq<Driver>, k: nat)
    requires Ranked(s) && NonIncreasing(s) && k <= |s|
    ensures Ranked(s[..k]) && NonIncreasing(s[..k])
  {
  }

  lemma PrefixOf(s: seq<Driver>, k: nat)
    requires k <= |s|
    ensures multiset(s[..k]) <= multiset(s)
  {
    assert s == s[..k] + s[k..];
  }

  /** In a ranked ordering of `z`, nothing after position `k` outweighs anything
      before it. */
  lemma DroppedNotHeavier(s: seq<Driver>, z: seq<Driver>, k: nat)
    requires Ranked(s) && k <= |s| && multiset(s) == multiset(z)
    ensures forall d, e :: d in z && d !in s[..k] && e in s[..k] ==> d.weight <= e.weight
  {
    forall d, e | d in z && d !in s[..k] && e in s[..k]
      ensures d.weight <= e.weight
    {
      assert d in multiset(z);
      var j :| 0 <= j < |s| && s[j] == d;
      var i :| 0 <= i < k && s[..k][i] == e;
      assert j >= k;
      assert Precedes(s[i], s[j]);
    }
  }

  lemma HeadPrecedes(s: seq<Driver>, x: Driver)
    requires Ranked(s) && x in multiset(s)
    ensures s[0] == x || Precedes(s[0], x)
  {
    var i :| 0 <= i < |s| && s[i] == x;
  }

  /** A ranked sequence is determined by its elements. */
  lemma {:induction false} RankedUnique(a: seq<Driver>, b: seq<Driver>)
    requires Ranked(a) && Ranked(b)
    requires multiset(a) == multiset(b)
    ensures a == b
  {
    if a == [] {
      assert |multiset(b)| == 0;
    } else {
      assert |b| == |a| by { assert |multiset(b)| == |multiset(a)|; }
      assert a[0] in multiset(b) && b[0] in multiset(a);
      HeadPrecedes(b, a[0]);
      HeadPrecedes(a, b[0]);
      RankedTailsAgree(a, b);
      RankedUnique(a[1..], b[1..]);
      assert a == [a[0]] + a[1..] && b == [b[0]] + b[1..];
    }
  }

  lemma RankedTailsAgree(a: seq<Driver>, b: seq<Driver>)
    requires |a| > 0 && |b| > 0 && a[0] == b[0] && multiset(a) == multiset(b)
    requires Ranked(a) && Ranked(b)
    ensures multiset(a[1..]) == multiset(b[1..])
    ensures Ranked(a[1..]) && Ranked(b[1..])
  {
    Multisets.SameTails(a, b);
  }

  /** When all weights are equal the stable sort keeps the feature order, so a model
      that explains nothing shows the first five features at 0.1 each. */
  lemma FallbackRanking()
    ensures Explain(NoExplanation) == Drivers(Zip(FeatureNames[..TopK], seq(TopK, _ => FallbackWeight)))
  {
    var w := seq(13, _ => FallbackWeight);
    var z := Zip(FeatureNames, w);
    var sorted := SortDescending(z);
    assert forall i :: 0 <= i < |z| ==> z[i].feature == i && z[i].weight == FallbackWeight;
    assert Ranked(z);
    SortDescendingRanked(z);
    RankedUnique(sorted, z);
    assert z[..TopK] == Zip(FeatureNames[..TopK], seq(TopK, _ => FallbackWeight));
  }

  /** Importances with one clear leader and ties below it: the ties are shown in
      feature order. */
  lemma TiedImportancesRanking(imps: seq<real>)
    requires imps == [0.05, 0.3, 0.1, 0.05, 0.05, 0.05, 0.05, 0.1, 0.05, 0.05, 0.05, 0.05, 0.05]
    ensures
      Explain(TreeImportances(imps)) ==
        Drivers([Driver(1, "Sex", 0.3), Driver(2, "CP", 0.1), Driver(7, "Heart Rate", 0.1),
                 Driver(0, "Age", 0.05), Driver(3, "BP", 0.05)])
  {
    var z := Zip(FeatureNames, imps);
    TiedPairs(imps);
    TiedLeaderFirstRanked(z);
    ExplainByRanking(TreeImportances(imps), LeaderFirst(z));
    LeaderFirstTop(z);
  }

  lemma TiedPairs(imps: seq<real>)
    requires imps == [0.05, 0.3, 0.1, 0.05, 0.05, 0.05, 0.05, 0.1, 0.05, 0.05, 0.05, 0.05, 0.05]
    ensures
      var z := Zip(FeatureNames, imps);
      && |z| == 13 && FeaturesAscending(z)
      && z[1].weight > z[2].weight == z[7].weight > 0.05
      && (forall i :: 0 <= i < 13 && i != 1 && i != 2 && i != 7 ==> z[i].weight == 0.05)
      && [z[1], z[2], z[7], z[0], z[3]] ==
         [Driver(1, "Sex", 0.3), Driver(2, "CP", 0.1), Driver(7, "Heart Rate", 0.1),
          Driver(0, "Age", 0.05), Driver(3, "BP", 0.05)]
  {
  }

  /** With pair 1 the heaviest, pairs 2 and 7 next and all others equal and lighter,
      `LeaderFirst` is the ranked order. */
  lemma TiedLeaderFirstRanked(z: seq<Driver>)
    requires |z| == 13 && FeaturesAscending(z)
    requires z[1].weight > z[2].weight == z[7].weight
    requires forall i :: 0 <= i < 13 && i != 1 && i != 2 && i != 7 ==> z[i].weight == 0.05
    requires z[2].weight > 0.05
    ensures Ranked(LeaderFirst(z))
  {
    var e := LeaderFirst(z);
    LeaderFirstAt(z);
    assert forall i :: 0 <= i < 12 ==> Precedes(e[i], e[i + 1]);
    ChainRanked(e);
  }

  lemma LeaderFirstTop(z: seq<Driver>)
    requires |z| == 13
    ensures LeaderFirst(z)[..TopK] == [z[1], z[2], z[7], z[0], z[3]]
  {
    LeaderFirstAt(z);
  }

  /** Any ranked arrangement of the zipped pairs is the one the explanation uses. */
  lemma ExplainByRanking(cap: Capability, expected: seq<Driver>)
    requires Weights(cap).Some?
    requires Ranked(expected)
    requires multiset(expected) == multiset(Zip(FeatureNames, Weights(cap).value))
    ensures Explain(cap) == Drivers(expected[..Min(TopK, |expected|)])
  {
    var z := Zip(FeatureNames, Weights(cap).value);
    SortDescendingRanked(z);
    RankedUnique(SortDescending(z), expected);
  }

  /** Thirteen pairs rearranged as pairs 1 and 2, pair 7, pair 0, then the rest in
      order. */
  function LeaderFirst(z: seq<Driver>): (e: seq<Driver>)
    requires |z| == 13
    ensures |e| == 13 && multiset(e) == multiset(z)
  {
    assert z == [z[0]] + z[1..3] + z[3..7] + [z[7]] + z[8..];
    z[1..3] + [z[7], z[0]] + z[3..7] + z[8..]
  }

  lemma LeaderFirstAt(z: seq<Driver>)
    requires |z| == 13
    ensures LeaderFirst(z)[0] == z[1] && LeaderFirst(z)[1] == z[2]
    ensures LeaderFirst(z)[2] == z[7] && LeaderFirst(z)[3] == z[0]
    ensures forall i :: 4 <= i < 8 ==> LeaderFirst(z)[i] == z[i - 1]
    ensures forall i :: 8 <= i < 13 ==> LeaderFirst(z)[i] == z[i]
  {
  }

  /** Precedence between neighbours extends to the whole sequence. */
  lemma {:induction false} ChainRanked(s: seq<Driver>)
    requires forall i :: 0 <= i < |s| - 1 ==> Precedes(s[i], s[i + 1])
    ensures Ranked(s)
  {
    if |s| > 1 {
      ChainRanked(s[1..]);
      assert Ranked(s[1..]);
      forall j | 1 <= j < |s|
        ensures Precedes(s[0], s[j])
      {
        assert s[j] == s[1..][j - 1];
        if j > 1 {
          assert Precedes(s[1..][0], s[1..][j - 1]);
        }
      }
    }
  }

  /** A linear model with all-zero coefficients yields NaN weights, which compare
      false both ways; the stable sort then leaves the names in feature order, as
      many as there are coefficients, up to five. No coefficient at all shows no
      driver. */
  lemma ZeroCoefficientsRanking(coef: seq<real>)
    requires forall i :: 0 <= i < |coef| ==> coef[i] == 0.0
    ensures coef == [] ==> Explain(LinearCoefficients(coef)) == Drivers([])
    ensures |coef| > 0 ==>
      Explain(LinearCoefficients(coef)) == Unweighted(FeatureNames[..Min(TopK, Min(13, |coef|))])
    ensures |coef| == 2 ==> Explain(LinearCoefficients(coef)) == Unweighted(["Age", "Sex"])
    ensures |coef| >= 5 ==> Explain(LinearCoefficients(coef)) == Unweighted(["Age", "Sex", "CP", "BP", "Chol"])
  {
    LinearWeights(coef);
  }
}
