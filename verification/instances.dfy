/**
 * Instance derivation from a price series: daily returns, per-day minimum
 * return, per-asset mean return, the ordered asset pairs and the day count.
 * Reals stand for the floating-point arrays as an exact idealisation; the
 * correlation matrix is an input (a missing entry stands for NaN).
 */
module Instances {
  import opened Wrappers
  import opened Sums

  /** The tuple the rest of the system unpacks; the covariance matrix is not part of this model. */
  datatype Instance = Instance(
    assets: seq<string>,
    dailyReturns: seq<seq<real>>,
    minDailyReturn: seq<real>,
    meanReturn: seq<real>,
    correlation: seq<seq<Option<real>>>,
    assetPairs: set<(nat, nat)>,
    totalDays: nat)

  /** The raw inputs for one asset type: tickers, price rows (one per date) and correlations. */
  datatype AssetData = AssetData(assets: seq<string>, prices: seq<seq<real>>, correlation: seq<seq<Option<real>>>)

  /** The minimum over an empty price row has no identity element and raises. */
  datatype InstanceError = EmptyRowMinimum

  predicate Matrix<T>(m: seq<seq<T>>, rows: nat, cols: nat)
  {
    |m| == rows && forall t :: 0 <= t < rows ==> |m[t]| == cols
  }

  /** Shape facts every instance satisfies. */
  predicate Valid(inst: Instance)
  {
    var n := |inst.assets|;
    && Matrix(inst.dailyReturns, inst.totalDays, n)
    && |inst.minDailyReturn| == inst.totalDays
    && |inst.meanReturn| == n
    && Matrix(inst.correlation, n, n)
    && forall p :: p in inst.assetPairs ==> p.0 < p.1 < n
  }

  /** Each day's minimum lies below every asset's return that day. */
  predicate MinimaHold(inst: Instance)
    requires Valid(inst)
  {
    forall t, i :: 0 <= t < inst.totalDays && 0 <= i < |inst.assets| ==>
      inst.minDailyReturn[t] <= inst.dailyReturns[t][i]
  }

  /** What the program demands of a price table: a rectangle of at least two dates with nonzero divisors. */
  predicate Usable(d: AssetData)
  {
    var n := |d.assets|;
    && |d.prices| >= 2
    && Matrix(d.prices, |d.prices|, n)
    && (forall t, i :: 0 <= t < |d.prices| - 1 && 0 <= i < n ==> d.prices[t][i] != 0.0)
    && Matrix(d.correlation, n, n)
  }

  /** Unordered pairs of distinct assets, each listed once with the smaller index first. */
  function AssetPairs(n: nat): (pairs: set<(nat, nat)>)
    ensures forall p :: p in pairs <==> p.0 < p.1 < n
  {
    var pairs := set i: nat, j: nat | i < j < n :: (i, j);
    assert forall p: (nat, nat) | p.0 < p.1 < n :: p in pairs by {
      forall p: (nat, nat) | p.0 < p.1 < n
        ensures p in pairs
      {
        var (i, j) := p;
        assert (i, j) in pairs;
      }
    }
    pairs
  }

  /** Relative price change from each date to the next, per asset. */
  function DailyReturns(prices: seq<seq<real>>, n: nat): (r: seq<seq<real>>)
    requires |prices| >= 1 && Matrix(prices, |prices|, n)
    requires forall t, i :: 0 <= t < |prices| - 1 && 0 <= i < n ==> prices[t][i] != 0.0
    ensures Matrix(r, |prices| - 1, n)
    ensures forall t, i :: 0 <= t < |prices| - 1 && 0 <= i < n ==>
      prices[t + 1][i] == prices[t][i] * (1.0 + r[t][i])
  {
    seq(|prices| - 1, t requires 0 <= t < |prices| - 1 =>
      seq(n, i requires 0 <= i < n => (prices[t + 1][i] - prices[t][i]) / prices[t][i]))
  }

  /** Compound growth factor of asset `i` over the first `t` days. */
  function Growth(r: seq<seq<real>>, i: nat, t: nat): real
    requires t <= |r| && forall s :: 0 <= s < t ==> i < |r[s]|
  {
    if t == 0 then 1.0 else Growth(r, i, t - 1) * (1.0 + r[t - 1][i])
  }

  /** Compounding the daily returns from the first price reproduces every later price. */
  lemma {:induction false} ReturnsCompoundToPrices(prices: seq<seq<real>>, n: nat, i: nat, t: nat)
    requires |prices| >= 1 && Matrix(prices, |prices|, n)
    requires forall s, j :: 0 <= s < |prices| - 1 && 0 <= j < n ==> prices[s][j] != 0.0
    requires i < n && t < |prices|
    ensures prices[t][i] == prices[0][i] * Growth(DailyReturns(prices, n), i, t)
  {
    var r := DailyReturns(prices, n);
    if t > 0 {
      ReturnsCompoundToPrices(prices, n, i, t - 1);
      assert prices[t][i] == prices[t - 1][i] * (1.0 + r[t - 1][i]);
      assert prices[0][i] * (Growth(r, i, t - 1) * (1.0 + r[t - 1][i]))
          == (prices[0][i] * Growth(r, i, t - 1)) * (1.0 + r[t - 1][i]);
    }
  }

  /** Worst asset return of each day. */
  function MinDailyReturn(r: seq<seq<real>>, n: nat): (m: seq<real>)
    requires n >= 1 && Matrix(r, |r|, n)
    ensures |m| == |r|
    ensures forall t, i :: 0 <= t < |r| && 0 <= i < n ==> m[t] <= r[t][i]
    ensures forall t :: 0 <= t < |r| ==> m[t] in r[t]
  {
    var m := seq(|r|, t requires 0 <= t < |r| => Min(r[t]));
    assert forall t :: 0 <= t < |r| ==> m[t] == Min(r[t]);
    m
  }

  function Column(r: seq<seq<real>>, i: nat): seq<real>
    requires forall t :: 0 <= t < |r| ==> i < |r[t]|
  {
    seq(|r|, t requires 0 <= t < |r| => r[t][i])
  }

  /** Average daily return of each asset. */
  function MeanReturn(r: seq<seq<real>>, n: nat): (mean: seq<real>)
    requires |r| >= 1 && Matrix(r, |r|, n)
  {
    seq(n, i requires 0 <= i < n => Sum(Column(r, i)) / (|r| as real))
  }

  /** Each asset's mean return lies between its worst and its best daily return. */
  lemma MeanWithinDailyRange(r: seq<seq<real>>, n: nat, i: nat)
    requires |r| >= 1 && Matrix(r, |r|, n) && i < n
    ensures Min(Column(r, i)) <= MeanReturn(r, n)[i] <= Max(Column(r, i))
  {
    var col := Column(r, i);
    var lo, hi := Min(col), Max(col);
    assert MeanReturn(r, n)[i] == Sum(col) / (|col| as real);
    assert lo * (|col| as real) <= Sum(col) <= hi * (|col| as real) by {
      SumWithin(col, lo, hi);
    }
    DivideBounds(lo, Sum(col), hi, |col| as real);
  }

  /** A sum of entries within [lo, hi] lies within [lo, hi] times their number. */
  lemma {:induction false} SumWithin(s: seq<real>, lo: real, hi: real)
    requires forall i :: 0 <= i < |s| ==> lo <= s[i] <= hi
    ensures lo * (|s| as real) <= Sum(s) <= hi * (|s| as real)
  {
    if |s| > 0 {
      SumWithin(s[1..], lo, hi);
      Distribute(lo, 1.0, (|s| - 1) as real);
      Distribute(hi, 1.0, (|s| - 1) as real);
    }
  }

  lemma DivideBounds(lo: real, s: real, hi: real, d: real)
    requires d > 0.0 && lo * d <= s <= hi * d
    ensures lo <= s / d <= hi
  {
  }

  /** Builds one instance; a universe without assets has no per-day minimum. */
  function GetInstance(d: AssetData): (r: Result<Instance, InstanceError>)
    requires Usable(d)
    ensures r.Failure? <==> |d.assets| == 0
    ensures r.Success? ==>
      && Valid(r.value)
      && MinimaHold(r.value)
      && r.value.assets == d.assets
      && r.value.totalDays == |d.prices| - 1
      && r.value.assetPairs == AssetPairs(|d.assets|)
      && r.value.correlation == d.correlation
      && r.value.dailyReturns == DailyReturns(d.prices, |d.assets|)
      && r.value.minDailyReturn == MinDailyReturn(r.value.dailyReturns, |d.assets|)
      && r.value.meanReturn == MeanReturn(r.value.dailyReturns, |d.assets|)
  {
    var n := |d.assets|;
    if n == 0 then Failure(EmptyRowMinimum)
    else
      var r := DailyReturns(d.prices, n);
      Success(Instance(d.assets, r, MinDailyReturn(r, n), MeanReturn(r, n), d.correlation,
                       AssetPairs(n), |r|))
  }

  /** One instance per asset type; any failing asset type aborts the whole derivation. */
  function GetInstances(data: map<string, AssetData>): (r: Result<map<string, Instance>, InstanceError>)
    requires forall k :: k in data ==> Usable(data[k])
    ensures r.Success? <==> forall k :: k in data ==> |data[k].assets| > 0
    ensures r.Success? ==> r.value.Keys == data.Keys
    ensures r.Success? ==> forall k :: k in data ==> GetInstance(data[k]) == Success(r.value[k])
  {
    if exists k :: k in data && GetInstance(data[k]).Failure? then Failure(EmptyRowMinimum)
    else Success(map k | k in data :: GetInstance(data[k]).value)
  }

  /**
   * Any fully invested nonnegative weighting returns at least the day's worst
   * asset return; this is what relaxes a return row to nothing on a bad day.
   */
  lemma WeightedReturnAboveDayMinimum(inst: Instance, t: nat, x: seq<real>)
    requires Valid(inst) && MinimaHold(inst) && t < inst.totalDays
    requires |x| == |inst.assets| && Sum(x) == 1.0
    requires forall i :: 0 <= i < |x| ==> 0.0 <= x[i]
    ensures Dot(inst.dailyReturns[t], x) >= inst.minDailyReturn[t]
  {
    DotAtLeast(inst.dailyReturns[t], x, inst.minDailyReturn[t]);
  }
}
