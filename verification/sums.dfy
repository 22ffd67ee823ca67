/**
 * Finite sums, weighted sums, counts and extremes over sequences of reals,
 * with the linear-inequality facts the portfolio model relies on.
 */
module Sums {

  /** 1 for a set binary variable, 0 otherwise. */
  function Ind(b: bool): real
  {
    if b then 1.0 else 0.0
  }

  function Sum(s: seq<real>): real
  {
    if |s| == 0 then 0.0 else s[0] + Sum(s[1..])
  }

  /** Inner product of two vectors of the same length. */
  function Dot(a: seq<real>, b: seq<real>): real
    requires |a| == |b|
  {
    if |a| == 0 then 0.0 else a[0] * b[0] + Dot(a[1..], b[1..])
  }

  /** Number of set entries of a mask. */
  function Count(m: seq<bool>): nat
  {
    if |m| == 0 then 0 else (if m[0] then 1 else 0) + Count(m[1..])
  }

  /** A mask has at most as many set entries as it has entries, and as many exactly when all are set. */
  lemma {:induction false} CountAtMostLength(m: seq<bool>)
    ensures Count(m) <= |m|
    ensures Count(m) == |m| <==> forall i :: 0 <= i < |m| ==> m[i]
  {
    if |m| > 0 {
      CountAtMostLength(m[1..]);
      if forall i :: 0 <= i < |m| ==> m[i] {
        assert forall i :: 0 <= i < |m| - 1 ==> m[1..][i] == m[i + 1];
      } else if m[0] {
        var i :| 0 <= i < |m| && !m[i];
        assert !m[1..][i - 1];
      }
    }
  }

  /** Setting more entries of a mask never lowers its count, and setting a new one raises it. */
  lemma {:induction false} CountGrows(a: seq<bool>, b: seq<bool>)
    requires |a| == |b| && forall i :: 0 <= i < |a| && a[i] ==> b[i]
    ensures Count(a) <= Count(b)
    ensures a != b ==> Count(a) < Count(b)
  {
    if |a| > 0 {
      assert forall i :: 0 <= i < |a| - 1 && a[1..][i] ==> b[1..][i] by {
        forall i | 0 <= i < |a| - 1 && a[1..][i]
          ensures b[1..][i]
        {
          assert a[i + 1];
        }
      }
      CountGrows(a[1..], b[1..]);
      if a != b && a[0] == b[0] {
        assert a == [a[0]] + a[1..] && b == [b[0]] + b[1..];
        assert a[1..] != b[1..];
      }
    }
  }

  /** The entries of `a` picked out by the mask `m`, in order. */
  function Selected(a: seq<real>, m: seq<bool>): seq<real>
    requires |a| == |m|
  {
    if |a| == 0 then [] else (if m[0] then [a[0]] else []) + Selected(a[1..], m[1..])
  }

  /** Smallest entry of a non-empty sequence. */
  function Min(s: seq<real>): (lo: real)
    requires |s| > 0
    ensures forall i :: 0 <= i < |s| ==> lo <= s[i]
    ensures lo in s
  {
    if |s| == 1 then s[0]
    else
      var rest := Min(s[1..]);
      if s[0] <= rest then s[0] else rest
  }

  /** Largest entry of a non-empty sequence. */
  function Max(s: seq<real>): (hi: real)
    requires |s| > 0
    ensures forall i :: 0 <= i < |s| ==> s[i] <= hi
    ensures hi in s
  {
    if |s| == 1 then s[0]
    else
      var rest := Max(s[1..]);
      if s[0] >= rest then s[0] else rest
  }

  lemma {:induction false} SumNonNegative(x: seq<real>)
    requires forall i :: 0 <= i < |x| ==> 0.0 <= x[i]
    ensures Sum(x) >= 0.0
  {
    if |x| > 0 {
      SumNonNegative(x[1..]);
    }
  }

  lemma {:induction false} SumAppend(s: seq<real>, v: real)
    ensures Sum(s + [v]) == Sum(s) + v
  {
    if |s| == 0 {
      assert s + [v] == [v];
    } else {
      assert (s + [v])[1..] == s[1..] + [v];
      SumAppend(s[1..], v);
    }
  }

  /** Removing one entry from a sum subtracts exactly that entry. */
  lemma {:induction false} SumRemove(c: seq<real>, p: nat)
    requires p < |c|
    ensures Sum(c) == c[p] + Sum(c[..p] + c[p + 1..])
  {
    if p == 0 {
      assert c[..0] + c[1..] == c[1..];
    } else {
      SumRemove(c[1..], p - 1);
      assert c[1..][..p - 1] + c[1..][p..] == (c[..p] + c[p + 1..])[1..];
    }
  }

  /** A set mask entry makes the count positive; an all-clear mask counts zero. */
  lemma {:induction false} CountPositive(m: seq<bool>)
    ensures Count(m) > 0 <==> exists i :: 0 <= i < |m| && m[i]
  {
    if |m| > 0 {
      CountPositive(m[1..]);
      if exists i :: 0 <= i < |m| && m[i] {
        var i :| 0 <= i < |m| && m[i];
        if i > 0 {
          assert m[1..][i - 1];
        }
      }
      if exists i :: 0 <= i < |m[1..]| && m[1..][i] {
        var i :| 0 <= i < |m[1..]| && m[1..][i];
        assert m[i + 1];
      }
    }
  }

  /** Two distinct set entries make the count at least two. */
  lemma {:induction false} CountTwo(m: seq<bool>, i: nat, j: nat)
    requires i < j < |m| && m[i] && m[j]
    ensures Count(m) >= 2
  {
    if i == 0 {
      assert m[1..][j - 1];
      CountPositive(m[1..]);
    } else {
      CountTwo(m[1..], i - 1, j - 1);
    }
  }

  /** Row-minimum fact: nonnegative weights put a weighted sum above `lo` times the total weight. */
  lemma {:induction false} DotAtLeast(a: seq<real>, x: seq<real>, lo: real)
    requires |a| == |x|
    requires forall i :: 0 <= i < |a| ==> lo <= a[i] && 0.0 <= x[i]
    ensures Dot(a, x) >= lo * Sum(x)
  {
    if |a| > 0 {
      var d, t := Dot(a[1..], x[1..]), Sum(x[1..]);
      assert Dot(a, x) == a[0] * x[0] + d;
      assert Sum(x) == x[0] + t;
      DotAtLeast(a[1..], x[1..], lo);
      AboveStep(a[0], x[0], lo, d, t);
    }
  }

  lemma AboveStep(a0: real, x0: real, lo: real, restDot: real, restSum: real)
    requires lo <= a0 && 0.0 <= x0 && restDot >= lo * restSum
    ensures a0 * x0 + restDot >= lo * (x0 + restSum)
  {
    Distribute(lo, x0, restSum);
    ScaleLe(lo, a0, x0);
  }

  /** Scaling both sides of an inequality by a nonnegative factor keeps it. */
  lemma ScaleLe(p: real, q: real, f: real)
    requires p <= q && 0.0 <= f
    ensures p * f <= q * f
  {
    assert (q - p) * f >= 0.0;
  }

  /** Scaling both sides of a strict inequality by a positive factor keeps it. */
  lemma ScaleLt(p: real, q: real, f: real)
    requires p < q && 0.0 < f
    ensures p * f < q * f
  {
    assert (q - p) * f > 0.0;
  }

  lemma Distribute(f: real, p: real, q: real)
    ensures f * (p + q) == f * p + f * q
  {
  }

  /**
   * Where every weighted entry lies strictly below `hi`, the weighted sum is
   * at most `hi` times the total weight, and strictly below once some weight is positive.
   */
  lemma {:induction false} DotBelow(a: seq<real>, x: seq<real>, hi: real)
    requires |a| == |x|
    requires forall i :: 0 <= i < |a| ==> 0.0 <= x[i] && (x[i] > 0.0 ==> a[i] < hi)
    ensures Dot(a, x) <= hi * Sum(x)
    ensures Sum(x) > 0.0 ==> Dot(a, x) < hi * Sum(x)
  {
    if |a| > 0 {
      var d, t := Dot(a[1..], x[1..]), Sum(x[1..]);
      assert 0.0 <= t && d <= hi * t && (t > 0.0 ==> d < hi * t) by {
        DotBelow(a[1..], x[1..], hi);
        SumNonNegative(x[1..]);
      }
      BelowCombine(Dot(a, x), Sum(x), a[0], x[0], hi, d, t);
    }
  }

  lemma BelowCombine(dot: real, sum: real, a0: real, x0: real, hi: real, restDot: real, restSum: real)
    requires dot == a0 * x0 + restDot && sum == x0 + restSum
    requires 0.0 <= x0 && (x0 > 0.0 ==> a0 < hi)
    requires 0.0 <= restSum && restDot <= hi * restSum
    requires restSum > 0.0 ==> restDot < hi * restSum
    ensures dot <= hi * sum
    ensures sum > 0.0 ==> dot < hi * sum
  {
    BelowStep(a0, x0, hi, restDot, restSum);
  }

  lemma BelowStep(a0: real, x0: real, hi: real, restDot: real, restSum: real)
    requires 0.0 <= x0 && (x0 > 0.0 ==> a0 < hi)
    requires 0.0 <= restSum && restDot <= hi * restSum
    requires restSum > 0.0 ==> restDot < hi * restSum
    ensures a0 * x0 + restDot <= hi * (x0 + restSum)
    ensures x0 + restSum > 0.0 ==> a0 * x0 + restDot < hi * (x0 + restSum)
  {
    Distribute(hi, x0, restSum);
    if x0 > 0.0 {
      ScaleLt(a0, hi, x0);
    } else {
      assert x0 == 0.0;
      assert a0 * x0 == 0.0;
      assert hi * x0 == 0.0;
    }
  }

  /** Weights of at least `c` on every masked entry add up to at least `c` per masked entry. */
  lemma {:induction false} WeightedCount(x: seq<real>, m: seq<bool>, c: real)
    requires |x| == |m|
    requires forall i :: 0 <= i < |x| ==> 0.0 <= x[i] && (m[i] ==> c <= x[i])
    ensures c * (Count(m) as real) <= Sum(x)
  {
    if |x| > 0 {
      WeightedCount(x[1..], m[1..], c);
      var k, t := Count(m[1..]) as real, Sum(x[1..]);
      assert Sum(x) == x[0] + t;
      assert Count(m) as real == Ind(m[0]) + k;
      Distribute(c, Ind(m[0]), k);
      assert c * Ind(m[0]) <= x[0];
    }
  }

  /** The masked entries form a sub-multiset of the whole, one entry per set mask bit. */
  lemma {:induction false} SelectedIsSubMultiset(a: seq<real>, m: seq<bool>)
    requires |a| == |m|
    ensures multiset(Selected(a, m)) <= multiset(a)
    ensures |Selected(a, m)| == Count(m)
  {
    if |a| > 0 {
      SelectedIsSubMultiset(a[1..], m[1..]);
      assert a == [a[0]] + a[1..];
      assert multiset(a) == multiset{a[0]} + multiset(a[1..]);
    }
  }

  /**
   * `dot` is bounded by `gamma` times `selSum` plus the remaining weight
   * `wSum - gamma * count` valued at `top`.
   */
  ghost predicate SplitHolds(dot: real, selSum: real, wSum: real, count: real, gamma: real, top: real)
  {
    dot <= gamma * selSum + top * (wSum - gamma * count)
  }

  /**
   * Splits a weighted sum whose weights are at least `gamma` on masked entries
   * and zero elsewhere: the `gamma` part weighs the masked entries, and the
   * excess weight is valued at most at the ceiling `top`.
   */
  lemma {:induction false} SplitDot(a: seq<real>, w: seq<real>, m: seq<bool>, gamma: real, top: real)
    requires |a| == |w| == |m|
    requires forall i :: 0 <= i < |a| ==> a[i] <= top
    requires forall i :: 0 <= i < |a| ==> if m[i] then gamma <= w[i] else w[i] == 0.0
    ensures SplitHolds(Dot(a, w), Sum(Selected(a, m)), Sum(w), Count(m) as real, gamma, top)
  {
    if |a| > 0 {
      SplitDot(a[1..], w[1..], m[1..], gamma, top);
      SelectedHead(a, m);
      SplitStep(a[0], w[0], m[0], gamma, top, Dot(a[1..], w[1..]), Sum(Selected(a[1..], m[1..])), Sum(w[1..]), Count(m[1..]) as real,
                Dot(a, w), Sum(Selected(a, m)), Sum(w), Count(m) as real);
    }
  }

  lemma SelectedHead(a: seq<real>, m: seq<bool>)
    requires |a| == |m| > 0
    ensures Sum(Selected(a, m)) == (if m[0] then a[0] else 0.0) + Sum(Selected(a[1..], m[1..]))
  {
    var rest := Selected(a[1..], m[1..]);
    if m[0] {
      assert Selected(a, m) == [a[0]] + rest;
      assert ([a[0]] + rest)[1..] == rest;
    } else {
      assert Selected(a, m) == rest;
    }
  }

  lemma SplitStep(a0: real, w0: real, sel: bool, gamma: real, top: real, d: real, s: real, ws: real, c: real,
                  dot: real, selSum: real, wSum: real, count: real)
    requires a0 <= top && (if sel then gamma <= w0 else w0 == 0.0)
    requires SplitHolds(d, s, ws, c, gamma, top)
    requires dot == a0 * w0 + d && selSum == (if sel then a0 else 0.0) + s
    requires wSum == w0 + ws && count == Ind(sel) + c
    ensures SplitHolds(dot, selSum, wSum, count, gamma, top)
  {
    if sel {
      ScaleLe(a0, top, w0 - gamma);
      assert a0 * w0 == gamma * a0 + a0 * (w0 - gamma);
      Distribute(gamma, a0, s);
      Distribute(gamma, 1.0, c);
      assert wSum - gamma * count == (w0 - gamma) + (ws - gamma * c);
      Distribute(top, w0 - gamma, ws - gamma * c);
    } else {
      assert a0 * w0 == 0.0;
      assert selSum == s && wSum - gamma * count == ws - gamma * c;
    }
  }
}
