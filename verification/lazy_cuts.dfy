/**
 * The lazy-constraint variant of the earlier solver: instead of adding the
 * daily return rows up front, a callback inspects each integer candidate the
 * engine finds and returns the rows it violates. Both callbacks are modelled
 * as pure functions from a candidate to the list of cuts they would add.
 */
module LazyCuts {
  import opened Wrappers
  import opened Sums
  import opened Instances
  import opened Graphs
  import opened Portfolio

  /** The engine's callback code for "a new integer solution was found". */
  const MipSol: int := 4

  /** The setting of the valid-day rows: added up front, emitted by the first callback, or absent. */
  datatype ValidDayMode = Upfront | InCallback | NoValidDay

  /** The configuration values one solve of the earlier version reads. */
  datatype SolveConfig = SolveConfig(delta: DeltaConstr, dist: DistConstr, validDay: ValidDayMode, callback: nat)

  /** How a solve is started: plainly, with one of the two callbacks, or not at all (no branch matches). */
  datatype Dispatch = Plain | WithCallback1 | WithCallback2 | NotStarted

  /** A lazy row for day `t`. */
  datatype Cut =
    | ReturnCut(t: nat)
    | ValidDayCut(t: nat)
    | UnselectedCut(t: nat, unselected: set<nat>)

  /** The second callback takes a maximum over the selected assets, which fails on an empty selection. */
  datatype CallbackError = EmptySelection

  function DispatchOf(callback: nat): (d: Dispatch)
    ensures d == Plain <==> callback == 0
    ensures d == WithCallback1 <==> callback == 1
    ensures d == WithCallback2 <==> callback == 2
    ensures d == NotStarted <==> callback >= 3
  {
    match callback
    case 0 => Plain
    case 1 => WithCallback1
    case 2 => WithCallback2
    case _ => NotStarted
  }

  /** Lazy rows are switched on exactly when a callback is configured. */
  predicate LazyConstraints(cfg: SolveConfig)
  {
    cfg.callback >= 1
  }

  /**
   * The rows one solve of the earlier version carries: the return rows only
   * without a callback, the valid-day rows only when set to up front, and
   * the cardinality row when a number of assets is given.
   */
  function BackupSpec(cfg: SolveConfig, numAssets: nat, cutoff: Option<real>): (spec: ModelSpec)
    ensures spec.returnRows <==> !LazyConstraints(cfg)
    ensures spec.validDayRows <==> cfg.validDay == Upfront
    ensures spec.fix.Some? <==> numAssets != 0
    ensures spec.fix.Some? ==> spec.fix.value == Fix(Equality, numAssets)
  {
    ModelSpec(cfg.callback == 0, cfg.delta, cfg.dist, cfg.validDay == Upfront,
              if numAssets == 0 then None else Some(Fix(Equality, numAssets)), cutoff)
  }

  /** A day both callbacks act on: not flagged bad, and the candidate's return falls short of the target. */
  predicate Violated(p: Problem, cand: Assignment, t: nat)
    requires WellPosed(p) && InDomain(p, cand) && t < T(p)
  {
    !cand.z[t] && Dot(p.inst.dailyReturns[t], cand.x) < p.rVar
  }

  /** Whether a cut holds at an assignment. */
  predicate Satisfies(p: Problem, a: Assignment, c: Cut)
    requires WellPosed(p) && InDomain(p, a) && c.t < T(p)
  {
    match c
    case ReturnCut(t) => ReturnRow(p, a, t)
    case ValidDayCut(t) => ValidDayRow(p, a, t)
    case UnselectedCut(t, u) => SelectedIn(a.y, u) as real >= 1.0 - Ind(a.z[t])
  }

  function DayCuts1(p: Problem, cand: Assignment, mode: ValidDayMode, t: nat): seq<Cut>
    requires WellPosed(p) && InDomain(p, cand) && t < T(p)
  {
    if !Violated(p, cand, t) then []
    else [ReturnCut(t)] + (if mode == InCallback then [ValidDayCut(t)] else [])
  }

  /** The first callback's cuts for days 0 .. days - 1. */
  function Cuts1(p: Problem, cand: Assignment, mode: ValidDayMode, days: nat): (cuts: seq<Cut>)
    requires WellPosed(p) && InDomain(p, cand) && days <= T(p)
    ensures forall c :: c in cuts ==> c.t < days && Violated(p, cand, c.t) && !c.UnselectedCut?
    ensures forall c :: c in cuts && c.ValidDayCut? ==> mode == InCallback
    ensures forall t :: 0 <= t < days ==> (ReturnCut(t) in cuts <==> Violated(p, cand, t))
    ensures forall t :: 0 <= t < days ==> (ValidDayCut(t) in cuts <==> Violated(p, cand, t) && mode == InCallback)
  {
    if days == 0 then []
    else Cuts1(p, cand, mode, days - 1) + DayCuts1(p, cand, mode, days - 1)
  }

  /**
   * The first callback: nothing unless a new integer solution is reported;
   * then, for each violated day, its return row, and its valid-day row when
   * those are left to the callback.
   */
  function Callback1(p: Problem, where: int, cand: Assignment, mode: ValidDayMode): (cuts: seq<Cut>)
    requires WellPosed(p) && InDomain(p, cand)
    ensures where != MipSol ==> cuts == []
    ensures forall c :: c in cuts ==> c.t < T(p) && Violated(p, cand, c.t) && !c.UnselectedCut?
    ensures where == MipSol ==> forall t :: 0 <= t < T(p) ==> (ReturnCut(t) in cuts <==> Violated(p, cand, t))
    ensures forall t :: 0 <= t < T(p) ==>
      (ValidDayCut(t) in cuts <==> where == MipSol && Violated(p, cand, t) && mode == InCallback)
  {
    if where != MipSol then [] else Cuts1(p, cand, mode, T(p))
  }

  /** The vertices the candidate selects, and those it does not. */
  function Selection(p: Problem, cand: Assignment): (s: set<nat>)
    requires InDomain(p, cand)
    ensures forall i :: i in s <==> i in p.g2.vertices && i < N(p) && cand.y[i]
  {
    set i | i in p.g2.vertices && i < N(p) && cand.y[i]
  }

  function Unselected(p: Problem, cand: Assignment): (s: set<nat>)
    requires InDomain(p, cand)
    ensures forall i :: i in s <==> i in p.g2.vertices && i < N(p) && !cand.y[i]
  {
    set i | i in p.g2.vertices && i < N(p) && !cand.y[i]
  }

  /** Some selected asset reaches the target on day `t`, so the largest selected return does. */
  predicate SelectedReaches(p: Problem, cand: Assignment, t: nat)
    requires WellPosed(p) && InDomain(p, cand) && t < T(p)
  {
    exists i :: i in Selection(p, cand) && p.inst.dailyReturns[t][i] >= p.rVar
  }

  /** The cut the second callback adds for a violated day. */
  function DayCut2(p: Problem, cand: Assignment, t: nat): Cut
    requires WellPosed(p) && InDomain(p, cand) && t < T(p)
  {
    if SelectedReaches(p, cand, t) then ReturnCut(t) else UnselectedCut(t, Unselected(p, cand))
  }

  /** The second callback's cuts for days 0 .. days - 1. */
  function Cuts2(p: Problem, cand: Assignment, days: nat): (r: Result<seq<Cut>, CallbackError>)
    requires WellPosed(p) && InDomain(p, cand) && days <= T(p)
    ensures r.Failure? <==> Selection(p, cand) == {} && exists t :: 0 <= t < days && Violated(p, cand, t)
    ensures r.Success? ==> forall c :: c in r.value ==>
      c.t < days && Violated(p, cand, c.t) && c == DayCut2(p, cand, c.t)
    ensures r.Success? ==> forall t :: 0 <= t < days && Violated(p, cand, t) ==> DayCut2(p, cand, t) in r.value
  {
    if days == 0 then Success([])
    else
      match Cuts2(p, cand, days - 1)
      case Failure(e) => Failure(e)
      case Success(cuts) =>
        var t := days - 1;
        if !Violated(p, cand, t) then Success(cuts)
        else if Selection(p, cand) == {} then Failure(EmptySelection)
        else Success(cuts + [DayCut2(p, cand, t)])
  }

  /**
   * The second callback: nothing unless a new integer solution is reported;
   * then, for each violated day, a row asking for some unselected asset when
   * no selected asset reaches the target that day, and the return row otherwise.
   */
  function Callback2(p: Problem, where: int, cand: Assignment): (r: Result<seq<Cut>, CallbackError>)
    requires WellPosed(p) && InDomain(p, cand)
    ensures where != MipSol ==> r == Success([])
    ensures where == MipSol ==> r == Cuts2(p, cand, T(p))
    ensures r.Failure? <==>
      where == MipSol && Selection(p, cand) == {} && exists t :: 0 <= t < T(p) && Violated(p, cand, t)
  {
    if where != MipSol then Success([]) else Cuts2(p, cand, T(p))
  }

  /** What every assignment the full model admits satisfies, whatever rows it is given. */
  predicate CoreRows(p: Problem, a: Assignment)
    requires WellPosed(p)
  {
    && InDomain(p, a)
    && (forall t :: 0 <= t < T(p) ==> ReturnRow(p, a, t))
    && FullInvestment(a)
    && Linked(p, a)
  }

  /** The unselected-asset row is valid for every assignment meeting the core rows, not just at the candidate. */
  lemma UnselectedCutValid(p: Problem, cand: Assignment, a: Assignment, t: nat)
    requires WellPosed(p) && InDomain(p, cand) && t < T(p) && !SelectedReaches(p, cand, t)
    requires CoreRows(p, a)
    ensures SelectedIn(a.y, Unselected(p, cand)) as real >= 1.0 - Ind(a.z[t])
  {
    var u := Unselected(p, cand);
    assert ReturnRow(p, a, t);
    if !a.z[t] && SelectedIn(a.y, u) == 0 {
      var r := p.inst.dailyReturns[t];
      LinkedEverywhere(p, a);
      forall i | 0 <= i < N(p) && a.x[i] > 0.0
        ensures r[i] < p.rVar
      {
        if r[i] >= p.rVar {
          assert i in p.g2.vertices;
          assert i in u;
          SelectedInPositive(a.y, u, i);
        }
      }
      DotBelow(r, a.x, p.rVar);
      assert false;
    }
  }

  /** Every cut either callback can add holds at every assignment meeting the core rows. */
  lemma CutsGloballyValid(p: Problem, where: int, cand: Assignment, mode: ValidDayMode, a: Assignment)
    requires WellPosed(p) && InDomain(p, cand) && CoreRows(p, a)
    ensures forall c :: c in Callback1(p, where, cand, mode) ==> Satisfies(p, a, c)
    ensures Callback2(p, where, cand).Success? ==> forall c :: c in Callback2(p, where, cand).value ==> Satisfies(p, a, c)
  {
    forall c | c in Callback1(p, where, cand, mode)
      ensures Satisfies(p, a, c)
    {
      if c.ValidDayCut? {
        ValidDayRowImplied(p, a, c.t);
      }
    }
    var r := Callback2(p, where, cand);
    if r.Success? {
      forall c | c in r.value
        ensures Satisfies(p, a, c)
      {
        if c.UnselectedCut? {
          assert c == DayCut2(p, cand, c.t);
          UnselectedCutValid(p, cand, a, c.t);
        }
      }
    }
  }

  /** A fully invested candidate that draws no cut meets every return row; flagged days by the row minimum. */
  lemma NoCutMeansReturnRows(p: Problem, cand: Assignment, mode: ValidDayMode)
    requires WellPosed(p) && InDomain(p, cand) && FullInvestment(cand)
    requires Callback1(p, MipSol, cand, mode) == [] || Callback2(p, MipSol, cand) == Success([])
    ensures forall t :: 0 <= t < T(p) ==> ReturnRow(p, cand, t)
  {
    forall t | 0 <= t < T(p)
      ensures ReturnRow(p, cand, t)
    {
      if cand.z[t] {
        BadDayRowVacuous(p, cand, t);
      } else if Callback1(p, MipSol, cand, mode) == [] {
        assert ReturnCut(t) !in Callback1(p, MipSol, cand, mode);
      } else {
        assert DayCut2(p, cand, t) !in Callback2(p, MipSol, cand).value;
      }
    }
  }

  /** At a candidate meeting c3, c5 and c6 some asset is selected, so the second callback never fails there. */
  lemma Callback2Total(p: Problem, where: int, cand: Assignment)
    requires WellPosed(p) && InDomain(p, cand) && FullInvestment(cand) && Linked(p, cand)
    ensures Callback2(p, where, cand).Success?
  {
    SelectionBounds(p, cand);
    CountPositive(cand.y);
    var i :| 0 <= i < |cand.y| && cand.y[i];
    assert i in p.g2.vertices;
    assert i in Selection(p, cand);
  }

  /**
   * Eager and lazy agree: an assignment the eager model admits satisfies the
   * lazy model and every cut either callback adds, and a candidate the lazy
   * model admits that draws no cut from the first callback is admitted by the
   * eager model.
   */
  lemma LazyMatchesEager(p: Problem, cfg: SolveConfig, numAssets: nat, cutoff: Option<real>, a: Assignment)
    requires WellPosed(p) && N(p) >= 1 && LazyConstraints(cfg)
    ensures Feasible(p, BackupSpec(cfg.(callback := 0), numAssets, cutoff), a) ==>
      && Feasible(p, BackupSpec(cfg, numAssets, cutoff), a)
      && (forall c :: c in Callback1(p, MipSol, a, cfg.validDay) ==> Satisfies(p, a, c))
      && Callback2(p, MipSol, a).Success?
      && (forall c :: c in Callback2(p, MipSol, a).value ==> Satisfies(p, a, c))
    ensures Feasible(p, BackupSpec(cfg, numAssets, cutoff), a) && Callback1(p, MipSol, a, cfg.validDay) == [] ==>
      Feasible(p, BackupSpec(cfg.(callback := 0), numAssets, cutoff), a)
  {
    var eager, lazy := BackupSpec(cfg.(callback := 0), numAssets, cutoff), BackupSpec(cfg, numAssets, cutoff);
    if Feasible(p, eager, a) {
      CutsGloballyValid(p, MipSol, a, cfg.validDay, a);
      Callback2Total(p, MipSol, a);
    }
    if Feasible(p, lazy, a) && Callback1(p, MipSol, a, cfg.validDay) == [] {
      NoCutMeansReturnRows(p, a, cfg.validDay);
    }
  }
}
