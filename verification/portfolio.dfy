/**
 * The mixed-integer model of the portfolio problem as a feasibility
 * predicate: real weights `x`, asset selections `y` and bad-day flags `z`,
 * together with the facts the search relies on.
 */
module Portfolio {
  import opened Wrappers
  import opened Sums
  import opened Instances
  import opened Graphs
  import opened Bounds

  /** One solve's data: the instance, the filtered square graph, its cliques and the parameters. */
  datatype Problem = Problem(
    inst: Instance,
    g2: Graph,
    cliques: seq<set<nat>>,
    rVar: real,
    gamma: real,
    delta: real)

  datatype DeltaConstr = DeltaInequality | DeltaEquality | DeltaOff
  datatype DistConstr = CliqueConstr | StarConstr | DistOff
  datatype FixKind = Equality | Inequality

  /** The cardinality row: exactly or at most `num` selected assets. */
  datatype Fix = Fix(kind: FixKind, num: nat)

  /** Which optional rows a particular solve carries. */
  datatype ModelSpec = ModelSpec(
    returnRows: bool,
    delta: DeltaConstr,
    dist: DistConstr,
    validDayRows: bool,
    fix: Option<Fix>,
    cutoff: Option<real>)

  datatype Assignment = Assignment(x: seq<real>, y: seq<bool>, z: seq<bool>)

  function N(p: Problem): nat { |p.inst.assets| }
  function T(p: Problem): nat { p.inst.totalDays }

  /** The instance is consistent, has at least one day, and the graph lives on asset indices. */
  predicate WellPosed(p: Problem)
  {
    && Valid(p.inst)
    && MinimaHold(p.inst)
    && p.inst.totalDays >= 1
    && WellFormed(p.g2)
    && forall v :: v in p.g2.vertices ==> v < |p.inst.assets|
  }

  /**
   * The variables exist only for the graph's vertices; an asset outside the
   * graph is modelled with weight 0 and no selection. Weights are nonnegative.
   */
  predicate InDomain(p: Problem, a: Assignment)
  {
    && |a.x| == N(p) && |a.y| == N(p) && |a.z| == T(p)
    && (forall i :: 0 <= i < N(p) ==> 0.0 <= a.x[i])
    && (forall i :: 0 <= i < N(p) && i !in p.g2.vertices ==> a.x[i] == 0.0 && !a.y[i])
  }

  /** The vertices whose return on day `t` reaches the target. */
  function ValidAssets(p: Problem, t: nat): (s: set<nat>)
    requires WellPosed(p) && t < T(p)
    ensures forall i :: i in s <==> i in p.g2.vertices && p.inst.dailyReturns[t][i] >= p.rVar
  {
    set i | i in p.g2.vertices && p.inst.dailyReturns[t][i] >= p.rVar
  }

  /** A day on which no asset at all reaches the target; its `z` is fixed to 1. */
  predicate ForcedBad(p: Problem, t: nat)
    requires WellPosed(p) && t < T(p) && N(p) >= 1
  {
    Max(p.inst.dailyReturns[t]) < p.rVar
  }

  /** The number of selected assets in `c`. */
  function SelectedIn(y: seq<bool>, c: set<nat>): nat
  {
    |set j | j in c && j < |y| && y[j]|
  }

  function Neighbours(g: Graph, i: nat): set<nat>
  {
    set j | j in g.vertices && Adj(g, i, j)
  }

  // c1
  predicate ReturnRow(p: Problem, a: Assignment, t: nat)
    requires WellPosed(p) && InDomain(p, a) && t < T(p)
  {
    Dot(p.inst.dailyReturns[t], a.x) >= p.rVar - (p.rVar - p.inst.minDailyReturn[t]) * Ind(a.z[t])
  }

  // c2
  predicate DeltaRow(p: Problem, mode: DeltaConstr, a: Assignment)
    requires WellPosed(p) && InDomain(p, a)
  {
    match mode
    case DeltaInequality => (Count(a.z) as real) / (T(p) as real) <= p.delta
    case DeltaEquality => Count(a.z) as int == (p.delta * T(p) as real).Floor
    case DeltaOff => true
  }

  // c3
  predicate FullInvestment(a: Assignment)
  {
    Sum(a.x) == 1.0
  }

  /** The diversification rows: at most one per listed clique, or a selected vertex excludes its neighbours. */
  predicate Diversified(p: Problem, mode: DistConstr, a: Assignment)
    requires WellPosed(p) && InDomain(p, a)
  {
    match mode
    case CliqueConstr => forall c :: c in p.cliques ==> SelectedIn(a.y, c) <= 1
    case StarConstr => forall i :: i in p.g2.vertices ==>
      (if a.y[i] then 1 else 0) + SelectedIn(a.y, Neighbours(p.g2, i)) <= 1
    case DistOff => true
  }

  // c5 and c6
  predicate Linked(p: Problem, a: Assignment)
    requires WellPosed(p) && InDomain(p, a)
  {
    forall i :: i in p.g2.vertices ==> p.gamma * Ind(a.y[i]) <= a.x[i] <= Ind(a.y[i])
  }

  // c7
  predicate ValidDayRow(p: Problem, a: Assignment, t: nat)
    requires WellPosed(p) && InDomain(p, a) && t < T(p)
  {
    SelectedIn(a.y, ValidAssets(p, t)) as real >= 1.0 - Ind(a.z[t])
  }

  // c8
  predicate Cardinality(fix: Option<Fix>, a: Assignment)
  {
    match fix
    case None => true
    case Some(f) => if f.kind == Equality then Count(a.y) == f.num else Count(a.y) <= f.num
  }

  function Objective(p: Problem, a: Assignment): real
    requires WellPosed(p) && InDomain(p, a)
  {
    Dot(p.inst.meanReturn, a.x)
  }

  /** All rows of one solve, including the z fixing and a warm start's objective cutoff. */
  predicate Feasible(p: Problem, spec: ModelSpec, a: Assignment)
    requires WellPosed(p) && N(p) >= 1
  {
    && InDomain(p, a)
    && (forall t :: 0 <= t < T(p) && ForcedBad(p, t) ==> a.z[t])
    && (spec.returnRows ==> forall t :: 0 <= t < T(p) ==> ReturnRow(p, a, t))
    && DeltaRow(p, spec.delta, a)
    && FullInvestment(a)
    && Diversified(p, spec.dist, a)
    && Linked(p, a)
    && (spec.validDayRows ==> forall t :: 0 <= t < T(p) ==> ValidDayRow(p, a, t))
    && Cardinality(spec.fix, a)
    && (spec.cutoff.Some? ==> Objective(p, a) >= spec.cutoff.value)
  }

  /** The fixing targets exactly the days on which every asset's return is below the target. */
  lemma ForcedBadMeaning(p: Problem, t: nat)
    requires WellPosed(p) && t < T(p) && N(p) >= 1
    ensures ForcedBad(p, t) <==> forall i :: 0 <= i < N(p) ==> p.inst.dailyReturns[t][i] < p.rVar
  {
  }

  /** On a bad day the return row asks only for the day's minimum, which any full investment meets. */
  lemma BadDayRowVacuous(p: Problem, a: Assignment, t: nat)
    requires WellPosed(p) && InDomain(p, a) && t < T(p)
    requires FullInvestment(a) && a.z[t]
    ensures ReturnRow(p, a, t)
  {
    WeightedReturnAboveDayMinimum(p.inst, t, a.x);
  }

  /**
   * Fixing z is sound: a fully invested portfolio that meets the return row
   * on a day where no asset reaches the target must flag the day as bad.
   */
  lemma ForcedBadDaySound(p: Problem, a: Assignment, t: nat)
    requires WellPosed(p) && InDomain(p, a) && t < T(p) && N(p) >= 1
    requires FullInvestment(a) && ReturnRow(p, a, t) && ForcedBad(p, t)
    ensures a.z[t]
  {
    if !a.z[t] {
      var r := p.inst.dailyReturns[t];
      DotBelow(r, a.x, p.rVar);
      assert false;
    }
  }

  /** So adding the fixing to a solve with return rows removes no feasible portfolio. */
  lemma FixingRemovesNothing(p: Problem, a: Assignment)
    requires WellPosed(p) && InDomain(p, a) && N(p) >= 1 && FullInvestment(a)
    requires forall t :: 0 <= t < T(p) ==> ReturnRow(p, a, t)
    ensures forall t :: 0 <= t < T(p) && ForcedBad(p, t) ==> a.z[t]
  {
    forall t | 0 <= t < T(p) && ForcedBad(p, t)
      ensures a.z[t]
    {
      ForcedBadDaySound(p, a, t);
    }
  }

  /** c5 and c6 written per index over all assets. */
  lemma LinkedEverywhere(p: Problem, a: Assignment)
    requires WellPosed(p) && InDomain(p, a) && Linked(p, a)
    ensures forall i :: 0 <= i < N(p) ==> if a.y[i] then p.gamma <= a.x[i] else a.x[i] == 0.0
  {
    forall i | 0 <= i < N(p)
      ensures if a.y[i] then p.gamma <= a.x[i] else a.x[i] == 0.0
    {
      if i in p.g2.vertices {
        assert p.gamma * Ind(a.y[i]) <= a.x[i] <= Ind(a.y[i]);
      }
    }
  }

  lemma CountBelowReciprocal(gamma: real, c: nat)
    requires gamma > 0.0 && gamma * (c as real) <= 1.0
    ensures c <= (1.0 / gamma).Floor
  {
    assert (c as real) <= 1.0 / gamma by {
      ScaleLe(gamma * (c as real), 1.0, 1.0 / gamma);
    }
  }

  /**
   * With c3, c5 and c6 only selected assets carry weight, at least one asset
   * is selected, and for a positive gamma at most floor(1/gamma) are.
   */
  lemma SelectionBounds(p: Problem, a: Assignment)
    requires WellPosed(p) && InDomain(p, a) && FullInvestment(a) && Linked(p, a)
    ensures forall i :: 0 <= i < N(p) && a.x[i] > 0.0 ==> a.y[i]
    ensures Count(a.y) >= 1
    ensures p.gamma > 0.0 ==> Count(a.y) <= (1.0 / p.gamma).Floor
  {
    LinkedEverywhere(p, a);
    SomeSelected(a.x, a.y);
    if p.gamma > 0.0 {
      WeightedCount(a.x, a.y, p.gamma);
      CountBelowReciprocal(p.gamma, Count(a.y));
    }
  }

  /** Weights that sum to one and sit only on selected entries select at least one. */
  lemma SomeSelected(x: seq<real>, y: seq<bool>)
    requires |x| == |y| && Sum(x) == 1.0
    requires forall i :: 0 <= i < |x| && !y[i] ==> x[i] == 0.0
    ensures Count(y) >= 1
  {
    if Count(y) == 0 {
      CountPositive(y);
      ZeroSum(x);
    }
  }

  lemma {:induction false} ZeroSum(x: seq<real>)
    requires forall i :: 0 <= i < |x| ==> x[i] == 0.0
    ensures Sum(x) == 0.0
  {
    if |x| > 0 {
      ZeroSum(x[1..]);
    }
  }

  lemma SelectedInPositive(y: seq<bool>, c: set<nat>, j: nat)
    requires j in c && j < |y| && y[j]
    ensures SelectedIn(y, c) >= 1
  {
    var s := set j | j in c && j < |y| && y[j];
    assert j in s;
    SubsetCard({j}, s);
  }

  lemma SelectedInTwo(y: seq<bool>, c: set<nat>, u: nat, v: nat)
    requires u != v && u in c && v in c && u < |y| && v < |y| && y[u] && y[v]
    ensures SelectedIn(y, c) >= 2
  {
    var s := set j | j in c && j < |y| && y[j];
    assert {u, v} <= s;
    assert |{u, v}| == 2;
    SubsetCard({u, v}, s);
  }

  lemma SubsetCard(a: set<nat>, b: set<nat>)
    requires a <= b
    ensures |a| <= |b|
  {
    assert b == a + (b - a);
  }

  /** With the star rows, the selected assets form an independent set of the square graph. */
  lemma StarSelectsIndependentSet(p: Problem, a: Assignment, u: nat, v: nat)
    requires WellPosed(p) && InDomain(p, a) && Diversified(p, StarConstr, a)
    requires Adj(p.g2, u, v)
    ensures !(a.y[u] && a.y[v])
  {
    AdjEndpoints(p.g2, u, v);
    if a.y[u] && a.y[v] {
      assert v in Neighbours(p.g2, u);
      SelectedInPositive(a.y, Neighbours(p.g2, u), v);
      assert false;
    }
  }

  /**
   * With the clique rows the same holds, provided every edge of the square
   * graph lies inside some listed clique, as maximal cliques do.
   */
  lemma CliqueSelectsIndependentSet(p: Problem, a: Assignment, u: nat, v: nat)
    requires WellPosed(p) && InDomain(p, a) && Diversified(p, CliqueConstr, a)
    requires forall s, w :: Adj(p.g2, s, w) ==> exists c :: c in p.cliques && s in c && w in c
    requires Adj(p.g2, u, v)
    ensures !(a.y[u] && a.y[v])
  {
    AdjEndpoints(p.g2, u, v);
    var c :| c in p.cliques && u in c && v in c;
    if a.y[u] && a.y[v] {
      SelectedInTwo(a.y, c, u, v);
      assert false;
    }
  }

  /**
   * c1, c3 and c6 already imply the valid-day row: on a good day some selected
   * asset must reach the target, or the weighted return would fall short.
   */
  lemma ValidDayRowImplied(p: Problem, a: Assignment, t: nat)
    requires WellPosed(p) && InDomain(p, a) && t < T(p)
    requires ReturnRow(p, a, t) && FullInvestment(a) && Linked(p, a)
    ensures ValidDayRow(p, a, t)
  {
    if !a.z[t] && SelectedIn(a.y, ValidAssets(p, t)) == 0 {
      var r := p.inst.dailyReturns[t];
      LinkedEverywhere(p, a);
      forall i | 0 <= i < N(p) && a.x[i] > 0.0
        ensures r[i] < p.rVar
      {
        if r[i] >= p.rVar {
          assert i in ValidAssets(p, t);
          SelectedInPositive(a.y, ValidAssets(p, t), i);
        }
      }
      DotBelow(r, a.x, p.rVar);
      assert false;
    }
  }

  /** So a solve with return rows has the same feasible portfolios with or without the valid-day rows. */
  lemma ValidDayRowsRedundant(p: Problem, spec: ModelSpec, a: Assignment)
    requires WellPosed(p) && N(p) >= 1 && spec.returnRows
    ensures Feasible(p, spec.(validDayRows := true), a) <==> Feasible(p, spec.(validDayRows := false), a)
  {
    if Feasible(p, spec.(validDayRows := false), a) {
      forall t | 0 <= t < T(p)
        ensures ValidDayRow(p, a, t)
      {
        ValidDayRowImplied(p, a, t);
      }
    }
  }

  /** Every feasible portfolio of exactly `k` assets earns at most the closed-form bound for `k`. */
  lemma ObjectiveWithinBound(p: Problem, spec: ModelSpec, a: Assignment, k: nat)
    requires WellPosed(p) && N(p) >= 1 && p.gamma >= 0.0
    requires spec.fix == Some(Fix(Equality, k)) && Feasible(p, spec, a)
    ensures 1 <= k <= N(p)
    ensures Objective(p, a) <= UpperBound(p.inst.meanReturn, p.gamma, k)
  {
    SelectionBounds(p, a);
    CountAtMostLength(a.y);
    LinkedEverywhere(p, a);
    BoundDominates(p.inst.meanReturn, p.gamma, k, a.x, a.y);
  }
}
