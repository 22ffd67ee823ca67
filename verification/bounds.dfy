/**
 * The closed-form objective bound for a fixed number of selected assets: the
 * best asset takes weight 1 - gamma * (k - 1) and the next k - 1 best take
 * gamma each.
 */
module Bounds {
  import opened Sums

  predicate SortedDesc(s: seq<real>)
  {
    forall i, j :: 0 <= i < j < |s| ==> s[i] >= s[j]
  }

  function Insert(v: real, s: seq<real>): (r: seq<real>)
    requires SortedDesc(s)
    ensures SortedDesc(r)
    ensures multiset(r) == multiset(s) + multiset{v}
  {
    if |s| == 0 || v >= s[0] then
      [v] + s
    else
      var rest := Insert(v, s[1..]);
      assert s == [s[0]] + s[1..];
      InsertBelowHead(v, s, rest);
      [s[0]] + rest
  }

  /** Inserting below the head keeps every entry of the result at most the head. */
  lemma InsertBelowHead(v: real, s: seq<real>, rest: seq<real>)
    requires SortedDesc(s) && |s| > 0 && v < s[0]
    requires multiset(rest) == multiset(s[1..]) + multiset{v}
    ensures forall j :: 0 <= j < |rest| ==> rest[j] <= s[0]
  {
    forall j | 0 <= j < |rest|
      ensures rest[j] <= s[0]
    {
      var x := rest[j];
      assert x in multiset(rest);
      if x != v {
        assert x in multiset(s[1..]);
        assert x in s[1..];
      }
    }
  }

  /** The values of `s` from largest to smallest, as numpy's argsort read from the end yields them. */
  function SortDesc(s: seq<real>): (r: seq<real>)
    ensures SortedDesc(r)
    ensures multiset(r) == multiset(s) && |r| == |s|
  {
    if |s| == 0 then [] else
      assert s == [s[0]] + s[1..];
      var r := Insert(s[0], SortDesc(s[1..]));
      assert |r| == |multiset(r)|;
      r
  }

  /** The bound's weights, largest-return asset first. */
  function BoundWeights(gamma: real, k: nat): (w: seq<real>)
    requires k >= 1
    ensures |w| == k && w[0] == 1.0 - gamma * (k - 1) as real
    ensures forall i :: 1 <= i < k ==> w[i] == gamma
  {
    [1.0 - gamma * (k - 1) as real] + seq(k - 1, _ => gamma)
  }

  /** The bound for `k` selected assets; it ranks every asset's mean, not only the graph's vertices. */
  function UpperBound(mean: seq<real>, gamma: real, k: nat): real
    requires 1 <= k <= |mean|
  {
    TopBound(SortDesc(mean), gamma, k)
  }

  /** The bound's weights applied to the first `k` entries of `s`. */
  function TopBound(s: seq<real>, gamma: real, k: nat): real
    requires 1 <= k <= |s|
  {
    Dot(BoundWeights(gamma, k), s[..k])
  }

  lemma {:induction false} SumConstant(n: nat, c: real)
    ensures Sum(seq(n, _ => c)) == n as real * c
  {
    if n > 0 {
      assert seq(n, _ => c)[1..] == seq(n - 1, _ => c);
      SumConstant(n - 1, c);
    }
  }

  /** The bound's weights sum to one, whatever gamma is. */
  lemma WeightsSumToOne(gamma: real, k: nat)
    requires k >= 1
    ensures Sum(BoundWeights(gamma, k)) == 1.0
  {
    var w := BoundWeights(gamma, k);
    assert w[1..] == seq(k - 1, _ => gamma);
    SumConstant(k - 1, gamma);
  }

  lemma {:induction false} DotConstant(gamma: real, s: seq<real>)
    ensures Dot(seq(|s|, _ => gamma), s) == gamma * Sum(s)
  {
    if |s| > 0 {
      assert seq(|s|, _ => gamma)[1..] == seq(|s| - 1, _ => gamma);
      DotConstant(gamma, s[1..]);
      Distribute(gamma, s[0], Sum(s[1..]));
    }
  }

  lemma LeadingStep(w0: real, gamma: real, s0: real, rest: real, k: real, dot: real, restDot: real)
    requires w0 == 1.0 - gamma * (k - 1.0)
    requires dot == w0 * s0 + restDot && restDot == gamma * rest
    ensures dot == gamma * (s0 + rest) + s0 * (1.0 - gamma * k)
  {
  }

  /** The bound, split into the equal-weight part and the best asset's surplus. */
  lemma TopBoundSplit(s: seq<real>, gamma: real, k: nat)
    requires 1 <= k <= |s|
    ensures TopBound(s, gamma, k) == gamma * Sum(s[..k]) + s[0] * (1.0 - gamma * k as real)
  {
    var w := BoundWeights(gamma, k);
    var t := s[..k];
    assert w[1..] == seq(k - 1, _ => gamma);
    DotConstant(gamma, t[1..]);
    assert Sum(t) == t[0] + Sum(t[1..]);
    LeadingStep(w[0], gamma, t[0], Sum(t[1..]), k as real, Dot(w, t), Dot(w[1..], t[1..]));
  }

  /** Shifting a window of a descending sequence one place to the right cannot increase its sum. */
  lemma WindowShift(s: seq<real>, m: nat)
    requires SortedDesc(s) && m + 1 <= |s|
    ensures Sum(s[1..m + 1]) <= Sum(s[..m])
  {
    if m > 0 {
      assert s[1..m + 1] == s[1..m] + [s[m]];
      SumAppend(s[1..m], s[m]);
      assert s[..m] == [s[0]] + s[1..m];
    }
  }

  lemma CancelSingleton(a: multiset<real>, b: multiset<real>, v: real)
    requires a + multiset{v} <= b + multiset{v}
    ensures a <= b
  {
    forall x
      ensures a[x] <= b[x]
    {
      assert (a + multiset{v})[x] <= (b + multiset{v})[x];
    }
  }

  /** Removing the element at `p` removes exactly one copy of it from the multiset. */
  lemma RemoveAt(s: seq<real>, p: nat)
    requires p < |s|
    ensures multiset(s) == multiset(s[..p] + s[p + 1..]) + multiset{s[p]}
  {
    assert s == s[..p] + [s[p]] + s[p + 1..];
  }

  lemma {:induction false} SubMultisetLength(c: seq<real>, s: seq<real>)
    requires multiset(c) <= multiset(s)
    ensures |c| <= |s|
  {
    if |c| > 0 {
      assert c[0] in multiset(s);
      var p :| 0 <= p < |s| && s[p] == c[0];
      var s' := s[..p] + s[p + 1..];
      RemoveAt(s, p);
      RemoveAt(c, 0);
      assert c[..0] + c[1..] == c[1..];
      CancelSingleton(multiset(c[1..]), multiset(s'), c[0]);
      SubMultisetLength(c[1..], s');
    }
  }

  /** Any sub-multiset of a descending sequence sums to at most its equally long prefix. */
  lemma {:induction false} TopSumDominates(c: seq<real>, s: seq<real>)
    requires SortedDesc(s) && multiset(c) <= multiset(s)
    ensures |c| <= |s| && Sum(c) <= Sum(s[..|c|])
    decreases |s|
  {
    SubMultisetLength(c, s);
    if |c| == 0 {
      return;
    }
    if s[0] in multiset(c) {
      var p :| 0 <= p < |c| && c[p] == s[0];
      var c' := c[..p] + c[p + 1..];
      HeadTaken(c, s, p);
      TopSumDominates(c', s[1..]);
      HeadTakenSum(c, s, p);
    } else {
      HeadSkipped(c, s);
      TopSumDominates(c, s[1..]);
      assert s[1..][..|c|] == s[1..|c| + 1];
      WindowShift(s, |c|);
    }
  }

  /** When the largest value is among the chosen ones, the rest were chosen from the tail. */
  lemma HeadTaken(c: seq<real>, s: seq<real>, p: nat)
    requires |s| > 0 && p < |c| && c[p] == s[0] && multiset(c) <= multiset(s)
    ensures multiset(c[..p] + c[p + 1..]) <= multiset(s[1..])
  {
    RemoveAt(s, 0);
    assert s[..0] + s[1..] == s[1..];
    RemoveAt(c, p);
    CancelSingleton(multiset(c[..p] + c[p + 1..]), multiset(s[1..]), s[0]);
  }

  lemma HeadTakenSum(c: seq<real>, s: seq<real>, p: nat)
    requires |s| > 0 && p < |c| <= |s| && c[p] == s[0]
    requires Sum(c[..p] + c[p + 1..]) <= Sum(s[1..][..|c| - 1])
    ensures Sum(c) <= Sum(s[..|c|])
  {
    SumRemove(c, p);
    var t := s[..|c|];
    assert t[1..] == s[1..][..|c| - 1];
    assert Sum(t) == s[0] + Sum(t[1..]);
  }

  /** When the largest value is not among the chosen ones, all were chosen from the tail. */
  lemma HeadSkipped(c: seq<real>, s: seq<real>)
    requires |s| > 0 && s[0] !in multiset(c) && multiset(c) <= multiset(s)
    ensures multiset(c) <= multiset(s[1..])
  {
    RemoveAt(s, 0);
    assert s[..0] + s[1..] == s[1..];
    forall x
      ensures multiset(c)[x] <= multiset(s[1..])[x]
    {
      assert (multiset(s[1..]) + multiset{s[0]})[x] == multiset(s)[x];
    }
  }

  lemma SortedHeadIsMax(s: seq<real>)
    requires |s| > 0
    ensures SortDesc(s)[0] == Max(s)
    ensures forall i :: 0 <= i < |s| ==> s[i] <= SortDesc(s)[0]
  {
    var r := SortDesc(s);
    assert Max(s) in multiset(r);
    assert r[0] in multiset(s);
    forall i | 0 <= i < |s|
      ensures s[i] <= r[0]
    {
      assert s[i] in multiset(r);
    }
  }

  /** For a single asset the bound is the largest mean return. */
  lemma SingleAssetBound(mean: seq<real>, gamma: real)
    requires |mean| >= 1
    ensures UpperBound(mean, gamma, 1) == Max(mean)
  {
    SortedHeadIsMax(mean);
    TopBoundOne(SortDesc(mean), gamma);
  }

  lemma TopBoundOne(s: seq<real>, gamma: real)
    requires |s| >= 1
    ensures TopBound(s, gamma, 1) == s[0]
  {
    TopBoundSplit(s, gamma, 1);
    assert s[..1] == [s[0]];
    SingleStep(gamma, s[0], Sum(s[..1]), TopBound(s, gamma, 1));
  }

  lemma SingleStep(gamma: real, s0: real, sum: real, b: real)
    requires sum == s0 && b == gamma * sum + s0 * (1.0 - gamma * 1.0)
    ensures b == s0
  {
  }

  lemma DominatesStep(dot: real, sel: real, top: real, s0: real, wSum: real, count: real, gamma: real, b: real)
    requires SplitHolds(dot, sel, wSum, count, gamma, s0)
    requires gamma >= 0.0 && sel <= top && wSum == 1.0
    requires b == gamma * top + s0 * (1.0 - gamma * count)
    ensures dot <= b
  {
    ScaleLe(sel, top, gamma);
  }

  /**
   * Every portfolio of exactly `k` assets, each holding at least gamma and
   * together all of the capital, earns at most the bound.
   */
  lemma BoundDominates(mean: seq<real>, gamma: real, k: nat, x: seq<real>, y: seq<bool>)
    requires 1 <= k <= |mean| && |x| == |y| == |mean| && gamma >= 0.0
    requires forall i :: 0 <= i < |x| ==> if y[i] then gamma <= x[i] else x[i] == 0.0
    requires Count(y) == k && Sum(x) == 1.0
    ensures Dot(mean, x) <= UpperBound(mean, gamma, k)
  {
    SortedHeadIsMax(mean);
    RankedBoundDominates(mean, SortDesc(mean), gamma, k, x, y);
  }

  lemma RankedBoundDominates(mean: seq<real>, s: seq<real>, gamma: real, k: nat, x: seq<real>, y: seq<bool>)
    requires 1 <= k <= |mean| && |x| == |y| == |mean| == |s| && gamma >= 0.0
    requires SortedDesc(s) && multiset(s) == multiset(mean)
    requires forall i :: 0 <= i < |mean| ==> mean[i] <= s[0]
    requires forall i :: 0 <= i < |x| ==> if y[i] then gamma <= x[i] else x[i] == 0.0
    requires Count(y) == k && Sum(x) == 1.0
    ensures Dot(mean, x) <= TopBound(s, gamma, k)
  {
    SplitDot(mean, x, y, gamma, s[0]);
    SelectedIsSubMultiset(mean, y);
    TopSumDominates(Selected(mean, y), s);
    BoundFromSplit(s, gamma, k, Dot(mean, x), Sum(Selected(mean, y)));
  }

  lemma BoundFromSplit(s: seq<real>, gamma: real, k: nat, dot: real, sel: real)
    requires 1 <= k <= |s| && gamma >= 0.0 && sel <= Sum(s[..k])
    requires SplitHolds(dot, sel, 1.0, k as real, gamma, s[0])
    ensures dot <= TopBound(s, gamma, k)
  {
    TopBoundSplit(s, gamma, k);
    DominatesStep(dot, sel, Sum(s[..k]), s[0], 1.0, k as real, gamma, TopBound(s, gamma, k));
  }

  lemma GrowStep(gamma: real, sum: real, sk: real, sum1: real, s0: real, k: real, k1: real, b: real, b1: real)
    requires gamma >= 0.0 && sk <= s0 && sum1 == sum + sk && k1 == k + 1.0
    requires b == gamma * sum + s0 * (1.0 - gamma * k)
    requires b1 == gamma * sum1 + s0 * (1.0 - gamma * k1)
    ensures b1 <= b
  {
    ScaleLe(sk, s0, gamma);
  }

  /** The bound's split form: the equal-weight part plus the best asset's surplus. */
  function SplitForm(s: seq<real>, gamma: real, k: nat): real
    requires 1 <= k <= |s|
  {
    gamma * Sum(s[..k]) + s[0] * (1.0 - gamma * k as real)
  }

  /** The split form of the bound does not grow from k to k + 1 on a descending sequence. */
  lemma SplitNonIncreasing(s: seq<real>, gamma: real, k: nat)
    requires SortedDesc(s) && 1 <= k < |s| && gamma >= 0.0
    ensures SplitForm(s, gamma, k + 1) <= SplitForm(s, gamma, k)
  {
    var j := k + 1;
    assert s[..j] == s[..k] + [s[k]];
    SumAppend(s[..k], s[k]);
    GrowStep(gamma, Sum(s[..k]), s[k], Sum(s[..j]), s[0], k as real, j as real, SplitForm(s, gamma, k), SplitForm(s, gamma, j));
  }

  /** Allowing one more asset never raises the bound when gamma is non-negative. */
  lemma BoundNonIncreasing(mean: seq<real>, gamma: real, k: nat)
    requires 1 <= k < |mean| && gamma >= 0.0
    ensures UpperBound(mean, gamma, k + 1) <= UpperBound(mean, gamma, k)
  {
    var s := SortDesc(mean);
    TopBoundSplit(s, gamma, k);
    TopBoundSplit(s, gamma, k + 1);
    SplitNonIncreasing(s, gamma, k);
  }
}
