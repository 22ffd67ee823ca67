/**
 * The bottom-up cardinality search: for k = 1, 2, ... solve the model with
 * exactly k assets, skip a k whose closed-form bound is already beaten, and
 * then revisit the unsolved k with at most k assets and a longer limit.
 * The engine is a parameter: a total map from a request to its outcome.
 */
module Search {
  import opened Wrappers
  import opened Sums
  import opened Bounds
  import opened Portfolio
  import opened Outcomes

  /** The earlier version warm-starts from any incumbent holding weights; this one needs them non-empty. */
  datatype Flavour = Application | Backup

  /** Everything a solve depends on besides the fixed problem data. */
  datatype Request = Request(k: nat, kind: FixKind, timeLimit: nat, warm: Option<Point>, pass: nat)

  /** One visited `k`: the incumbent it saw, and the request if the engine was called. */
  datatype Step = Step(k: nat, before: Incumbent, request: Option<Request>)

  type Engine = Request -> EngineResult

  /**
   * The engine reports a weight and a selection for every vertex, and it
   * stores a solution whenever the status is none of the infeasible and
   * time-limit codes: the program reads the solution on that branch and
   * would raise without one.
   */
  ghost predicate Shaped(engine: Engine, vertices: set<nat>)
  {
    && (forall r: Request, i: nat :: i in vertices ==> i < |engine(r).x| && i < |engine(r).y|)
    && (forall r: Request :: Readable(engine(r)))
  }

  /** Under the engine assumption every 'Optimal' record the search writes comes from a stored solution. */
  lemma ShapedOptimalStored(engine: Engine, vertices: set<nat>, r: Request)
    requires Shaped(engine, vertices)
    ensures FromEngine(engine(r), vertices).status == Optimal ==> engine(r).solCount > 0
    ensures FromEngine(engine(r), vertices).point.Some? ==> engine(r).solCount > 0
  {
    assert Readable(engine(r));
  }

  function WarmStart(flavour: Flavour, best: Incumbent): (w: Option<Point>)
    ensures w.Some? ==> best.Incumbent? && best.sol.Record? && best.sol.point == w
    ensures (&& best.Incumbent? && best.sol.Record? && best.sol.point.Some?
             && (flavour == Backup || |best.sol.point.value.weights| > 0)) ==> w == best.sol.point
  {
    if best.Incumbent? && best.sol.Record? && best.sol.point.Some?
       && (flavour == Backup || |best.sol.point.value.weights| > 0)
    then best.sol.point
    else None
  }

  /**
   * The current version warm-starts only from a non-empty weight map; the
   * earlier one from whatever portfolio the incumbent holds.
   */
  lemma WarmStartFlavours(best: Incumbent)
    ensures WarmStart(Application, best).Some? ==> |WarmStart(Application, best).value.weights| > 0
    ensures best.Incumbent? && best.sol.Record? ==> WarmStart(Backup, best) == best.sol.point
    ensures WarmStart(Application, best).Some? ==> WarmStart(Backup, best) == WarmStart(Application, best)
  {
  }

  /** A `k` is skipped iff its bound is strictly below the incumbent's objective. */
  predicate Prunes(bound: real, best: Incumbent)
  {
    Less(Finite(bound), BestObj(best))
  }

  /** The incumbent holds a portfolio, names a slot, and equals that slot while it is the stored record. */
  predicate IncumbentOk(best: Incumbent, sols: seq<Solution>)
  {
    best.Incumbent? ==>
      && SolObj(best.sol).Finite?
      && 1 <= best.idx <= |sols|
      && (best.inList ==> sols[best.idx - 1] == best.sol)
  }

  /** Every pruned record's bound lies below the incumbent. */
  predicate PrunesJustified(sols: seq<Solution>, ub: seq<real>, best: Incumbent)
    requires |sols| == |ub|
  {
    forall j :: 0 <= j < |sols| && sols[j].Record? && sols[j].status == PrunedByBound ==> Prunes(ub[j], best)
  }

  function StepKs(steps: seq<Step>): (ks: seq<nat>)
    ensures |ks| == |steps| && forall s :: 0 <= s < |steps| ==> ks[s] == steps[s].k
  {
    seq(|steps|, s requires 0 <= s < |steps| => steps[s].k)
  }

  /** The cardinalities 1 .. |sols| whose records are not solved, in increasing order. */
  function UnsolvedKs(sols: seq<Solution>): (ks: seq<nat>)
    ensures forall s :: 0 <= s < |ks| ==> 1 <= ks[s] <= |sols| && !Solved(sols[ks[s] - 1])
  {
    if |sols| == 0 then []
    else UnsolvedKs(sols[..|sols| - 1]) + (if Solved(sols[|sols| - 1]) then [] else [|sols|])
  }

  /** Before the first pass no slot is solved, so every k is visited. */
  lemma {:induction false} AllPendingUnsolved(n: nat)
    ensures UnsolvedKs(seq(n, _ => Pending)) == seq(n, j => j + 1)
  {
    if n > 0 {
      assert seq(n, _ => Pending)[..n - 1] == seq(n - 1, _ => Pending);
      AllPendingUnsolved(n - 1);
    }
  }

  /** The record a step writes. */
  function Outcome(st: Step, ub: seq<real>, engine: Engine, vertices: set<nat>): Solution
    requires 1 <= st.k <= |ub| && Shaped(engine, vertices)
  {
    if st.request.None? then Pruned(ub[st.k - 1]) else FromEngine(engine(st.request.value), vertices)
  }

  /** What one pass fixes for all its solves. */
  datatype PassConfig = PassConfig(flavour: Flavour, kind: FixKind, timeLimit: nat, pass: nat)

  datatype PassState = PassState(sols: seq<Solution>, best: Incumbent, steps: seq<Step>)

  function RequestFor(k: nat, best: Incumbent, cfg: PassConfig): Request
  {
    Request(k, cfg.kind, cfg.timeLimit, WarmStart(cfg.flavour, best), cfg.pass)
  }

  /**
   * Visits `k`: a solved slot is left alone; otherwise the slot is pruned or
   * solved, overwritten (detaching an incumbent stored there), and offered to
   * the incumbent.
   */
  function Visit(st: PassState, k: nat, ub: seq<real>, engine: Engine, vertices: set<nat>, cfg: PassConfig)
    : PassState
    requires 1 <= k <= |ub| == |st.sols| && Shaped(engine, vertices)
  {
    if Solved(st.sols[k - 1]) then st
    else
      var request := if Prunes(ub[k - 1], st.best) then None else Some(RequestFor(k, st.best, cfg));
      var step := Step(k, st.best, request);
      var cur := Outcome(step, ub, engine, vertices);
      PassState(st.sols[k - 1 := cur], GetBest(Detach(st.best, k), cur, k), st.steps + [step])
  }

  /** Overwriting slot `k` detaches an incumbent stored there: it keeps its record but is no longer the slot's. */
  function Detach(best: Incumbent, k: nat): (r: Incumbent)
    ensures BestObj(r) == BestObj(best)
    ensures r == best || (best.Incumbent? && best.inList && best.idx == k && r == best.(inList := false))
  {
    if best.Incumbent? && best.inList && best.idx == k then best.(inList := false) else best
  }

  /** The incumbent after a step: the one it saw, detached from slot k, offered the record the step wrote. */
  ghost function After(st: Step, ub: seq<real>, engine: Engine, vertices: set<nat>): Incumbent
    requires 1 <= st.k <= |ub| && Shaped(engine, vertices)
  {
    GetBest(Detach(st.before, st.k), Outcome(st, ub, engine, vertices), st.k)
  }

  /** Each step saw the incumbent the previous step left, and the first saw `best0`. */
  ghost predicate Chained(best0: Incumbent, steps: seq<Step>, ub: seq<real>, engine: Engine, vertices: set<nat>)
    requires Shaped(engine, vertices)
  {
    && (forall s :: 0 <= s < |steps| ==> 1 <= steps[s].k <= |ub|)
    && (|steps| > 0 ==> steps[0].before == best0)
    && (forall s :: 0 < s < |steps| ==> steps[s].before == After(steps[s - 1], ub, engine, vertices))
  }

  /** The incumbent a chain of steps ends with. */
  ghost function ChainEnd(best0: Incumbent, steps: seq<Step>, ub: seq<real>, engine: Engine, vertices: set<nat>)
    : Incumbent
    requires Shaped(engine, vertices) && (|steps| > 0 ==> 1 <= steps[|steps| - 1].k <= |ub|)
  {
    if |steps| == 0 then best0 else After(steps[|steps| - 1], ub, engine, vertices)
  }

  predicate StepOk(st: Step, sols0: seq<Solution>, sols: seq<Solution>, ub: seq<real>, engine: Engine,
                   vertices: set<nat>, cfg: PassConfig)
    requires |sols0| == |sols| == |ub| && Shaped(engine, vertices)
  {
    && 1 <= st.k <= |ub|
    && !Solved(sols0[st.k - 1])
    && (st.request.None? <==> Prunes(ub[st.k - 1], st.before))
    && (st.request.Some? ==> st.request.value == RequestFor(st.k, st.before, cfg))
    && sols[st.k - 1] == Outcome(st, ub, engine, vertices)
  }

  /** What holds after visiting k = 1 .. k - 1, starting from `st0`. */
  ghost predicate PassInv(st0: PassState, st: PassState, k: nat, ub: seq<real>, engine: Engine, vertices: set<nat>,
                          cfg: PassConfig)
  {
    SlotsInv(st0, st, k, ub) && Shaped(engine, vertices) && StepsInv(st0, st, k, ub, engine, vertices, cfg)
  }

  /** The slots: visited ones hold records no better than the incumbent, the rest are untouched. */
  ghost predicate SlotsInv(st0: PassState, st: PassState, k: nat, ub: seq<real>)
  {
    && |st0.sols| == |ub| && 1 <= k <= |ub| + 1
    && |st.sols| == |ub|
    && (forall j :: 0 <= j < |ub| ==> Coherent(st.sols[j]))
    && IncumbentOk(st.best, st.sols) && PrunesJustified(st.sols, ub, st.best)
    && AtMost(BestObj(st0.best), BestObj(st.best))
    && (forall j :: k - 1 <= j < |ub| ==> st.sols[j] == st0.sols[j])
    && (forall j :: 0 <= j < |ub| && Solved(st0.sols[j]) ==> st.sols[j] == st0.sols[j])
    && (forall j :: 0 <= j < k - 1 && !Solved(st0.sols[j]) ==>
          st.sols[j].Record? && AtMost(SolObj(st.sols[j]), BestObj(st.best)))
  }

  /** The steps: one per unsolved slot visited so far, each describing what it wrote. */
  ghost predicate StepsInv(st0: PassState, st: PassState, k: nat, ub: seq<real>, engine: Engine, vertices: set<nat>,
                           cfg: PassConfig)
    requires SlotsInv(st0, st, k, ub) && Shaped(engine, vertices)
  {
    && StepKs(st.steps) == UnsolvedKs(st0.sols[..k - 1])
    && (forall s :: 0 <= s < |st.steps| ==> st.steps[s].k < k)
    && (forall s :: 0 <= s < |st.steps| ==> StepOk(st.steps[s], st0.sols, st.sols, ub, engine, vertices, cfg))
    && Chained(st0.best, st.steps, ub, engine, vertices)
    && st.best == ChainEnd(st0.best, st.steps, ub, engine, vertices)
  }

  /**
   * One pass from the records `sols0` and the incumbent `best0`: it visited
   * exactly the unsolved k in increasing order, each pruned or asked from the
   * incumbent of that moment, wrote what the engine returned for it, and left
   * the solved slots alone.
   */
  ghost predicate PassTrace(sols0: seq<Solution>, best0: Incumbent, steps: seq<Step>, sols: seq<Solution>,
                            ub: seq<real>, engine: Engine, vertices: set<nat>, cfg: PassConfig)
    requires Shaped(engine, vertices)
  {
    && |sols0| == |sols| == |ub|
    && StepKs(steps) == UnsolvedKs(sols0)
    && (forall s :: 0 <= s < |steps| ==> StepOk(steps[s], sols0, sols, ub, engine, vertices, cfg))
    && (forall j :: 0 <= j < |ub| && Solved(sols0[j]) ==> sols[j] == sols0[j])
    && Chained(best0, steps, ub, engine, vertices)
  }

  lemma LessTrans(a: ExtReal, b: ExtReal, c: ExtReal)
    requires Less(a, b) && AtMost(b, c)
    ensures Less(a, c)
  {
  }

  lemma AtMostTrans(a: ExtReal, b: ExtReal, c: ExtReal)
    requires AtMost(a, b) && AtMost(b, c)
    ensures AtMost(a, c)
  {
  }

  lemma VisitPreserves(st0: PassState, st: PassState, k: nat, ub: seq<real>, engine: Engine, vertices: set<nat>,
                       cfg: PassConfig)
    requires PassInv(st0, st, k, ub, engine, vertices, cfg) && k <= |ub|
    ensures PassInv(st0, Visit(st, k, ub, engine, vertices, cfg), k + 1, ub, engine, vertices, cfg)
  {
    if !Solved(st.sols[k - 1]) {
      VisitUnsolved(st0, st, k, ub, engine, vertices, cfg);
    } else {
      VisitSolved(st0, st, k, ub, engine, vertices, cfg);
    }
  }

  lemma VisitSolved(st0: PassState, st: PassState, k: nat, ub: seq<real>, engine: Engine, vertices: set<nat>,
                    cfg: PassConfig)
    requires PassInv(st0, st, k, ub, engine, vertices, cfg) && k <= |ub| && Solved(st.sols[k - 1])
    ensures PassInv(st0, Visit(st, k, ub, engine, vertices, cfg), k + 1, ub, engine, vertices, cfg)
  {
    assert st.sols[k - 1] == st0.sols[k - 1];
    UnsolvedKsSnoc(st0.sols, k);
  }

  lemma UnsolvedKsSnoc(sols: seq<Solution>, k: nat)
    requires 1 <= k <= |sols|
    ensures UnsolvedKs(sols[..k]) == UnsolvedKs(sols[..k - 1]) + (if Solved(sols[k - 1]) then [] else [k])
  {
    assert sols[..k][..k - 1] == sols[..k - 1];
  }

  lemma StepKsSnoc(steps: seq<Step>, step: Step)
    ensures StepKs(steps + [step]) == StepKs(steps) + [step.k]
  {
  }

  lemma VisitUnsolved(st0: PassState, st: PassState, k: nat, ub: seq<real>, engine: Engine, vertices: set<nat>,
                      cfg: PassConfig)
    requires PassInv(st0, st, k, ub, engine, vertices, cfg) && k <= |ub| && !Solved(st.sols[k - 1])
    ensures PassInv(st0, Visit(st, k, ub, engine, vertices, cfg), k + 1, ub, engine, vertices, cfg)
  {
    VisitSlots(st0, st, k, ub, engine, vertices, cfg);
    VisitSteps(st0, st, k, ub, engine, vertices, cfg);
  }

  /** The pieces of one visit to an unsolved slot. */
  lemma VisitParts(st: PassState, k: nat, ub: seq<real>, engine: Engine, vertices: set<nat>, cfg: PassConfig)
    returns (step: Step, cur: Solution, kept: Incumbent)
    requires 1 <= k <= |ub| == |st.sols| && Shaped(engine, vertices) && !Solved(st.sols[k - 1])
    ensures step.k == k && step.before == st.best
    ensures step.request.None? <==> Prunes(ub[k - 1], st.best)
    ensures step.request.Some? ==> step.request.value == RequestFor(k, st.best, cfg)
    ensures cur == Outcome(step, ub, engine, vertices) && Coherent(cur)
    ensures cur.Record? && cur.status == PrunedByBound ==> step.request.None?
    ensures kept == Detach(st.best, k)
    ensures Visit(st, k, ub, engine, vertices, cfg) ==
      PassState(st.sols[k - 1 := cur], GetBest(kept, cur, k), st.steps + [step])
    ensures GetBest(kept, cur, k) == After(step, ub, engine, vertices)
  {
    var request := if Prunes(ub[k - 1], st.best) then None else Some(RequestFor(k, st.best, cfg));
    step := Step(k, st.best, request);
    cur := Outcome(step, ub, engine, vertices);
    kept := Detach(st.best, k);
    EngineRecordsCoherent(engine(RequestFor(k, st.best, cfg)), vertices, ub[k - 1]);
  }

  lemma VisitSlots(st0: PassState, st: PassState, k: nat, ub: seq<real>, engine: Engine, vertices: set<nat>,
                   cfg: PassConfig)
    requires SlotsInv(st0, st, k, ub) && Shaped(engine, vertices) && k <= |ub| && !Solved(st.sols[k - 1])
    ensures SlotsInv(st0, Visit(st, k, ub, engine, vertices, cfg), k + 1, ub)
  {
    var step, cur, kept := VisitParts(st, k, ub, engine, vertices, cfg);
    var next := Visit(st, k, ub, engine, vertices, cfg);
    GetBestMonotone(kept, cur, k);
    forall j | 0 <= j < |ub| && next.sols[j].Record? && next.sols[j].status == PrunedByBound
      ensures Prunes(ub[j], next.best)
    {
      if j != k - 1 {
        LessTrans(Finite(ub[j]), BestObj(st.best), BestObj(next.best));
      } else {
        LessTrans(Finite(ub[j]), BestObj(step.before), BestObj(next.best));
      }
    }
    forall j | 0 <= j < k - 1 && !Solved(st0.sols[j])
      ensures AtMost(SolObj(next.sols[j]), BestObj(next.best))
    {
      AtMostTrans(SolObj(st.sols[j]), BestObj(st.best), BestObj(next.best));
    }
    AtMostTrans(BestObj(st0.best), BestObj(st.best), BestObj(next.best));
  }

  lemma VisitSteps(st0: PassState, st: PassState, k: nat, ub: seq<real>, engine: Engine, vertices: set<nat>,
                   cfg: PassConfig)
    requires PassInv(st0, st, k, ub, engine, vertices, cfg) && k <= |ub| && !Solved(st.sols[k - 1])
    requires SlotsInv(st0, Visit(st, k, ub, engine, vertices, cfg), k + 1, ub)
    ensures StepsInv(st0, Visit(st, k, ub, engine, vertices, cfg), k + 1, ub, engine, vertices, cfg)
  {
    var step, cur, kept := VisitParts(st, k, ub, engine, vertices, cfg);
    var next := Visit(st, k, ub, engine, vertices, cfg);
    GetBestMonotone(kept, cur, k);
    assert st.sols[k - 1] == st0.sols[k - 1];
    StepOkSnoc(st.steps, step, st0.sols, st.sols, ub, engine, vertices, cfg);
    StepKsSnoc(st.steps, step);
    UnsolvedKsSnoc(st0.sols, k);
    ChainSnoc(st0.best, st.steps, step, ub, engine, vertices);
  }

  /** Writing the outcome of a step for a fresh k keeps the earlier steps' records and adds its own. */
  lemma StepOkSnoc(steps: seq<Step>, step: Step, sols0: seq<Solution>, sols: seq<Solution>, ub: seq<real>,
                   engine: Engine, vertices: set<nat>, cfg: PassConfig)
    requires |sols0| == |sols| == |ub| && Shaped(engine, vertices)
    requires forall s :: 0 <= s < |steps| ==> StepOk(steps[s], sols0, sols, ub, engine, vertices, cfg)
    requires forall s :: 0 <= s < |steps| ==> steps[s].k < step.k
    requires 1 <= step.k <= |ub| && !Solved(sols0[step.k - 1])
    requires step.request.None? <==> Prunes(ub[step.k - 1], step.before)
    requires step.request.Some? ==> step.request.value == RequestFor(step.k, step.before, cfg)
    ensures forall s :: 0 <= s < |steps| + 1 ==>
      StepOk((steps + [step])[s], sols0, sols[step.k - 1 := Outcome(step, ub, engine, vertices)], ub, engine,
             vertices, cfg)
  {
    var sols2 := sols[step.k - 1 := Outcome(step, ub, engine, vertices)];
    forall s | 0 <= s < |steps| + 1
      ensures StepOk((steps + [step])[s], sols0, sols2, ub, engine, vertices, cfg)
    {
      if s < |steps| {
        assert StepOk(steps[s], sols0, sols, ub, engine, vertices, cfg);
        assert sols2[steps[s].k - 1] == sols[steps[s].k - 1];
      }
    }
  }

  /** A step that saw the incumbent the chain ended with extends the chain, which then ends after it. */
  lemma ChainSnoc(best0: Incumbent, steps: seq<Step>, step: Step, ub: seq<real>, engine: Engine, vertices: set<nat>)
    requires Shaped(engine, vertices) && Chained(best0, steps, ub, engine, vertices) && 1 <= step.k <= |ub|
    requires step.before == ChainEnd(best0, steps, ub, engine, vertices)
    ensures Chained(best0, steps + [step], ub, engine, vertices)
    ensures ChainEnd(best0, steps + [step], ub, engine, vertices) == After(step, ub, engine, vertices)
  {
    var t := steps + [step];
    forall s | 0 < s < |t|
      ensures t[s].before == After(t[s - 1], ub, engine, vertices)
    {
      if s < |steps| {
        assert t[s] == steps[s] && t[s - 1] == steps[s - 1];
      } else {
        assert t[s] == step && t[s - 1] == steps[|steps| - 1];
      }
    }
  }

  /**
   * One bottom-up pass over k = 1 .. |ub|: a solved slot is left alone; an
   * unsolved one is pruned or solved, stored, and offered to the incumbent.
   */
  method RunPass(sols0: seq<Solution>, best0: Incumbent, ub: seq<real>, vertices: set<nat>, engine: Engine,
                 cfg: PassConfig)
    returns (sols: seq<Solution>, best: Incumbent, steps: seq<Step>)
    requires |sols0| == |ub| && Shaped(engine, vertices)
    requires forall j :: 0 <= j < |sols0| ==> Coherent(sols0[j])
    requires IncumbentOk(best0, sols0) && PrunesJustified(sols0, ub, best0)
    ensures PassTrace(sols0, best0, steps, sols, ub, engine, vertices, cfg)
    ensures best == ChainEnd(best0, steps, ub, engine, vertices)
    ensures forall j :: 0 <= j < |sols| ==> Coherent(sols[j])
    ensures IncumbentOk(best, sols) && PrunesJustified(sols, ub, best)
    ensures AtMost(BestObj(best0), BestObj(best))
    ensures forall j :: 0 <= j < |sols| && !Solved(sols0[j]) ==>
      sols[j].Record? && AtMost(SolObj(sols[j]), BestObj(best))
  {
    var st0 := PassState(sols0, best0, []);
    var st := st0;
    var k := 1;
    while k <= |ub|
      invariant 1 <= k <= |ub| + 1 && |st.sols| == |ub|
      invariant PassFrom(st, k, ub, engine, vertices, cfg) == PassFrom(st0, 1, ub, engine, vertices, cfg)
      decreases |ub| + 1 - k
    {
      st := Visit(st, k, ub, engine, vertices, cfg);
      k := k + 1;
    }
    assert sols0[..0] == [];
    PassFromInv(st0, st0, 1, ub, engine, vertices, cfg);
    PassDone(st0, st, ub, engine, vertices, cfg);
    sols, best, steps := st.sols, st.best, st.steps;
  }

  /** The visits of k .. |ub| in increasing order, starting from `st`. */
  function PassFrom(st: PassState, k: nat, ub: seq<real>, engine: Engine, vertices: set<nat>, cfg: PassConfig)
    : PassState
    requires 1 <= k <= |ub| + 1 && |st.sols| == |ub| && Shaped(engine, vertices)
    decreases |ub| + 1 - k
  {
    if k > |ub| then st else PassFrom(Visit(st, k, ub, engine, vertices, cfg), k + 1, ub, engine, vertices, cfg)
  }

  /** The remaining visits keep the pass invariant up to the end of the list. */
  lemma {:induction false} PassFromInv(st0: PassState, st: PassState, k: nat, ub: seq<real>, engine: Engine,
                                       vertices: set<nat>, cfg: PassConfig)
    requires PassInv(st0, st, k, ub, engine, vertices, cfg)
    ensures PassInv(st0, PassFrom(st, k, ub, engine, vertices, cfg), |ub| + 1, ub, engine, vertices, cfg)
    decreases |ub| + 1 - k
  {
    if k <= |ub| {
      VisitPreserves(st0, st, k, ub, engine, vertices, cfg);
      PassFromInv(st0, Visit(st, k, ub, engine, vertices, cfg), k + 1, ub, engine, vertices, cfg);
    }
  }

  /** After the last k the invariant gives the pass's contract. */
  lemma PassDone(st0: PassState, st: PassState, ub: seq<real>, engine: Engine, vertices: set<nat>, cfg: PassConfig)
    requires PassInv(st0, st, |ub| + 1, ub, engine, vertices, cfg)
    ensures |st.sols| == |st0.sols|
    ensures forall j :: 0 <= j < |st.sols| && !Solved(st0.sols[j]) ==>
      st.sols[j].Record? && AtMost(SolObj(st.sols[j]), BestObj(st.best))
    ensures PassTrace(st0.sols, st0.best, st.steps, st.sols, ub, engine, vertices, cfg)
    ensures st.best == ChainEnd(st0.best, st.steps, ub, engine, vertices)
  {
    assert st0.sols[..|ub|] == st0.sols;
  }

  /** The bounds for k = 1 .. K. */
  function BoundList(mean: seq<real>, gamma: real, maxAssets: nat): (ub: seq<real>)
    requires maxAssets <= |mean|
    ensures |ub| == maxAssets
    ensures forall j :: 0 <= j < maxAssets ==> ub[j] == UpperBound(mean, gamma, j + 1)
  {
    seq(maxAssets, j requires 0 <= j < maxAssets => UpperBound(mean, gamma, j + 1))
  }

  /** Every step visited a k of the list, pruned it iff its bound was below the incumbent, and otherwise asked as configured. */
  predicate Visited(steps: seq<Step>, ub: seq<real>, cfg: PassConfig)
  {
    forall s :: 0 <= s < |steps| ==>
      && 1 <= steps[s].k <= |ub|
      && (steps[s].request.None? <==> Prunes(ub[steps[s].k - 1], steps[s].before))
      && (steps[s].request.Some? ==> steps[s].request.value == RequestFor(steps[s].k, steps[s].before, cfg))
  }

  lemma StepsVisited(sols0: seq<Solution>, best0: Incumbent, steps: seq<Step>, sols: seq<Solution>, ub: seq<real>,
                     engine: Engine, vertices: set<nat>, cfg: PassConfig)
    requires Shaped(engine, vertices) && PassTrace(sols0, best0, steps, sols, ub, engine, vertices, cfg)
    ensures Visited(steps, ub, cfg)
  {
    forall s | 0 <= s < |steps|
      ensures 1 <= steps[s].k <= |ub|
    {
      assert StepOk(steps[s], sols0, sols, ub, engine, vertices, cfg);
    }
  }

  /** Read through the closed-form bounds, a visited step prunes iff the bound for its k is below the incumbent. */
  lemma VisitedMeaning(steps: seq<Step>, mean: seq<real>, gamma: real, ub: seq<real>, cfg: PassConfig)
    requires |ub| <= |mean| && ub == BoundList(mean, gamma, |ub|) && Visited(steps, ub, cfg)
    ensures forall s :: 0 <= s < |steps| ==> 1 <= steps[s].k <= |ub|
    ensures forall s :: 0 <= s < |steps| ==>
      (steps[s].request.None? <==> Prunes(UpperBound(mean, gamma, steps[s].k), steps[s].before))
    ensures forall s :: 0 <= s < |steps| ==> steps[s].request.Some? ==>
      steps[s].request.value == Request(steps[s].k, cfg.kind, cfg.timeLimit, WarmStart(cfg.flavour, steps[s].before), cfg.pass)
  {
  }

  /** The records and the incumbent as every pass and every sweep leave them. */
  predicate Settled(sols: seq<Solution>, ub: seq<real>, best: Incumbent)
  {
    && |sols| == |ub|
    && (forall j :: 0 <= j < |sols| ==> Coherent(sols[j]))
    && IncumbentOk(best, sols) && PrunesJustified(sols, ub, best)
    && (forall j :: 0 <= j < |sols| ==> AtMost(SolObj(sols[j]), BestObj(best)))
  }

  /** A pass from settled records leaves them settled: the kept slots were at most the old incumbent, which only grew. */
  lemma PassSettled(sols0: seq<Solution>, best0: Incumbent, sols: seq<Solution>, best: Incumbent, ub: seq<real>)
    requires Settled(sols0, ub, best0) && |sols| == |ub|
    requires forall j :: 0 <= j < |sols| ==> Coherent(sols[j])
    requires IncumbentOk(best, sols) && PrunesJustified(sols, ub, best)
    requires AtMost(BestObj(best0), BestObj(best))
    requires forall j :: 0 <= j < |ub| && Solved(sols0[j]) ==> sols[j] == sols0[j]
    requires forall j :: 0 <= j < |sols| && !Solved(sols0[j]) ==>
      sols[j].Record? && AtMost(SolObj(sols[j]), BestObj(best))
    ensures Settled(sols, ub, best)
  {
    forall j | 0 <= j < |ub|
      ensures AtMost(SolObj(sols[j]), BestObj(best))
    {
      if Solved(sols0[j]) {
        AtMostTrans(SolObj(sols[j]), BestObj(best0), BestObj(best));
      }
    }
  }

  /** The sweep and the re-read of the incumbent keep settled records settled. */
  lemma SweepSettled(sols: seq<Solution>, ub: seq<real>, best: Incumbent)
    requires Settled(sols, ub, best) && forall j :: 0 <= j < |sols| ==> sols[j].Record?
    ensures Settled(UpdateSolutions(best, sols), ub, Resync(best, UpdateSolutions(best, sols)))
    ensures BestObj(Resync(best, UpdateSolutions(best, sols))) == BestObj(best)
  {
    var swept := UpdateSolutions(best, sols);
    var best2 := Resync(best, swept);
    assert BestObj(best2) == BestObj(best);
    forall j | 0 <= j < |ub| && swept[j].Record? && swept[j].status == PrunedByBound
      ensures Prunes(ub[j], best2)
    {
      assert sols[j].status == PrunedByBound;
    }
    forall j | 0 <= j < |ub|
      ensures AtMost(SolObj(swept[j]), BestObj(best2))
    {
      assert SolObj(swept[j]) == SolObj(sols[j]);
    }
  }

  /** One pass over the closed-form bounds from settled records, read through those bounds. */
  method TracedPass(mean: seq<real>, gamma: real, sols0: seq<Solution>, best0: Incumbent, vertices: set<nat>,
                    engine: Engine, cfg: PassConfig)
    returns (sols: seq<Solution>, best: Incumbent, steps: seq<Step>)
    requires |sols0| <= |mean| && Shaped(engine, vertices)
    requires Settled(sols0, BoundList(mean, gamma, |sols0|), best0)
    ensures PassTrace(sols0, best0, steps, sols, BoundList(mean, gamma, |sols0|), engine, vertices, cfg)
    ensures best == ChainEnd(best0, steps, BoundList(mean, gamma, |sols0|), engine, vertices)
    ensures Settled(sols, BoundList(mean, gamma, |sols0|), best)
    ensures forall j :: 0 <= j < |sols| && !Solved(sols0[j]) ==> sols[j].Record?
    ensures forall s :: 0 <= s < |steps| ==> steps[s].request.Some? ==>
      steps[s].request.value == Request(steps[s].k, cfg.kind, cfg.timeLimit, WarmStart(cfg.flavour, steps[s].before), cfg.pass)
    ensures forall s :: 0 <= s < |steps| ==>
      (steps[s].request.None? <==> Prunes(UpperBound(mean, gamma, steps[s].k), steps[s].before))
  {
    var ub := BoundList(mean, gamma, |sols0|);
    sols, best, steps := RunPass(sols0, best0, ub, vertices, engine, cfg);
    StepsVisited(sols0, best0, steps, sols, ub, engine, vertices, cfg);
    VisitedMeaning(steps, mean, gamma, ub, cfg);
    PassSettled(sols0, best0, sols, best, ub);
  }

  /**
   * The first pass over every k with exactly k assets and 300 s from all
   * slots pending, then the sweep and the re-read of the incumbent.
   */
  method FirstPass(mean: seq<real>, gamma: real, maxAssets: nat, vertices: set<nat>, engine: Engine)
    returns (sols1: seq<Solution>, swept: seq<Solution>, best: Incumbent, steps1: seq<Step>)
    requires maxAssets <= |mean| && Shaped(engine, vertices)
    ensures PassTrace(seq(maxAssets, _ => Pending), Initial, steps1, sols1, BoundList(mean, gamma, maxAssets),
                      engine, vertices, PassConfig(Application, Equality, 300, 1))
    ensures forall j :: 0 <= j < |sols1| ==> sols1[j].Record? && Coherent(sols1[j])
    ensures IncumbentOk(ChainEnd(Initial, steps1, BoundList(mean, gamma, maxAssets), engine, vertices), sols1)
    ensures swept == UpdateSolutions(ChainEnd(Initial, steps1, BoundList(mean, gamma, maxAssets), engine, vertices), sols1)
    ensures best == Resync(ChainEnd(Initial, steps1, BoundList(mean, gamma, maxAssets), engine, vertices), swept)
    ensures Settled(swept, BoundList(mean, gamma, maxAssets), best)
    ensures StepKs(steps1) == seq(maxAssets, j => j + 1)
    ensures forall s :: 0 <= s < |steps1| ==> steps1[s].request.Some? ==>
      steps1[s].request.value == Request(steps1[s].k, Equality, 300, WarmStart(Application, steps1[s].before), 1)
    ensures forall s :: 0 <= s < |steps1| ==>
      (steps1[s].request.None? <==> Prunes(UpperBound(mean, gamma, steps1[s].k), steps1[s].before))
  {
    var pending := seq(maxAssets, _ => Pending);
    var best1;
    sols1, best1, steps1 := TracedPass(mean, gamma, pending, Initial, vertices, engine,
                                       PassConfig(Application, Equality, 300, 1));
    AllPendingUnsolved(maxAssets);
    SweepSettled(sols1, BoundList(mean, gamma, maxAssets), best1);
    swept := UpdateSolutions(best1, sols1);
    best := Resync(best1, swept);
  }

  /** The second pass over the still-unsolved k with at most k assets and 600 s, from the swept records. */
  method SecondPass(mean: seq<real>, gamma: real, swept: seq<Solution>, best1: Incumbent, vertices: set<nat>,
                    engine: Engine)
    returns (sols: seq<Solution>, best: Incumbent, steps2: seq<Step>)
    requires |swept| <= |mean| && Shaped(engine, vertices)
    requires Settled(swept, BoundList(mean, gamma, |swept|), best1)
    requires forall j :: 0 <= j < |swept| ==> swept[j].Record?
    ensures PassTrace(swept, best1, steps2, sols, BoundList(mean, gamma, |swept|),
                      engine, vertices, PassConfig(Application, Inequality, 600, 2))
    ensures best == ChainEnd(best1, steps2, BoundList(mean, gamma, |swept|), engine, vertices)
    ensures Settled(sols, BoundList(mean, gamma, |swept|), best) && forall j :: 0 <= j < |sols| ==> sols[j].Record?
    ensures forall s :: 0 <= s < |steps2| ==> steps2[s].request.Some? ==>
      steps2[s].request.value == Request(steps2[s].k, Inequality, 600, WarmStart(Application, steps2[s].before), 2)
    ensures forall s :: 0 <= s < |steps2| ==>
      (steps2[s].request.None? <==> Prunes(UpperBound(mean, gamma, steps2[s].k), steps2[s].before))
  {
    sols, best, steps2 := TracedPass(mean, gamma, swept, best1, vertices, engine,
                                     PassConfig(Application, Inequality, 600, 2));
    assert PassTrace(swept, best1, steps2, sols, BoundList(mean, gamma, |swept|),
                     engine, vertices, PassConfig(Application, Inequality, 600, 2));
  }

  /** The report's guarantees follow from the records and the incumbent the passes leave. */
  lemma ReportFacts(r: Result<Report, ReportError>, sols: seq<Solution>, best: Incumbent, placeholder: BoundPlaceholder,
                    mean: seq<real>, gamma: real, ub: seq<real>)
    requires |ub| <= |mean| && ub == BoundList(mean, gamma, |ub|)
    requires Settled(sols, ub, best) && forall j :: 0 <= j < |sols| ==> sols[j].Record?
    requires r == SetIterResults(best, sols, placeholder)
    ensures r.Success? ==> forall j :: 0 <= j < |ub| ==> AtMost(SolObj(sols[j]), SolObj(r.value.best))
    ensures r.Success? ==> forall j :: 0 <= j < |ub| && sols[j].Record? && sols[j].status == PrunedByBound ==>
      Less(Finite(UpperBound(mean, gamma, j + 1)), SolObj(r.value.best))
    ensures r.Failure? ==> forall j :: 0 <= j < |ub| ==> SolObj(sols[j]) == NegInf
  {
  }

  /**
   * The two-pass search: every k once with exactly k assets and a 300 s limit,
   * a sweep closing unsolved k whose bound the incumbent meets, then every
   * still-unsolved k again with at most k assets and a 600 s limit. `sols1`
   * and `swept` are the records after the first pass and after the sweep,
   * `best1` the incumbent the second pass starts from.
   */
  method SolveIterative(mean: seq<real>, gamma: real, maxAssets: nat, vertices: set<nat>, engine: Engine)
    returns (r: Result<Report, ReportError>, sols1: seq<Solution>, swept: seq<Solution>, sols: seq<Solution>,
             best1: Incumbent, best: Incumbent, steps1: seq<Step>, steps2: seq<Step>)
    requires maxAssets <= |mean| && Shaped(engine, vertices)
    ensures PassTrace(seq(maxAssets, _ => Pending), Initial, steps1, sols1, BoundList(mean, gamma, maxAssets),
                      engine, vertices, PassConfig(Application, Equality, 300, 1))
    ensures forall j :: 0 <= j < maxAssets ==> sols1[j].Record? && Coherent(sols1[j])
    ensures IncumbentOk(ChainEnd(Initial, steps1, BoundList(mean, gamma, maxAssets), engine, vertices), sols1)
    ensures swept == UpdateSolutions(ChainEnd(Initial, steps1, BoundList(mean, gamma, maxAssets), engine, vertices), sols1)
    ensures best1 == Resync(ChainEnd(Initial, steps1, BoundList(mean, gamma, maxAssets), engine, vertices), swept)
    ensures PassTrace(swept, best1, steps2, sols, BoundList(mean, gamma, maxAssets),
                      engine, vertices, PassConfig(Application, Inequality, 600, 2))
    ensures best == ChainEnd(best1, steps2, BoundList(mean, gamma, maxAssets), engine, vertices)
    ensures Settled(sols, BoundList(mean, gamma, maxAssets), best) && forall j :: 0 <= j < |sols| ==> sols[j].Record?
    ensures r == SetIterResults(best, sols, StatusText)
    ensures StepKs(steps1) == seq(maxAssets, j => j + 1)
    ensures forall s :: 0 <= s < |steps1| ==> steps1[s].request.Some? ==>
      steps1[s].request.value == Request(steps1[s].k, Equality, 300, WarmStart(Application, steps1[s].before), 1)
    ensures forall s :: 0 <= s < |steps2| ==> steps2[s].request.Some? ==>
      steps2[s].request.value == Request(steps2[s].k, Inequality, 600, WarmStart(Application, steps2[s].before), 2)
    ensures forall s :: 0 <= s < |steps1| ==>
      (steps1[s].request.None? <==> Prunes(UpperBound(mean, gamma, steps1[s].k), steps1[s].before))
    ensures forall s :: 0 <= s < |steps2| ==>
      (steps2[s].request.None? <==> Prunes(UpperBound(mean, gamma, steps2[s].k), steps2[s].before))
    ensures r.Success? ==> forall j :: 0 <= j < maxAssets ==> AtMost(SolObj(sols[j]), SolObj(r.value.best))
    ensures r.Success? ==> forall j :: 0 <= j < maxAssets && sols[j].Record? && sols[j].status == PrunedByBound ==>
      Less(Finite(UpperBound(mean, gamma, j + 1)), SolObj(r.value.best))
    ensures r.Success? ==> (r.value.status == AllSolved <==> forall j :: 0 <= j < maxAssets ==> Solved(sols[j]))
    ensures r.Failure? ==> forall j :: 0 <= j < maxAssets ==> SolObj(sols[j]) == NegInf
  {
    sols1, swept, best1, steps1 := FirstPass(mean, gamma, maxAssets, vertices, engine);
    sols, best, steps2 := SecondPass(mean, gamma, swept, best1, vertices, engine);
    r := SetIterResults(best, sols, StatusText);
    ReportFacts(r, sols, best, StatusText, mean, gamma, BoundList(mean, gamma, maxAssets));
  }

  /**
   * Pruning is sound: when the bound for `k` is below the incumbent, no
   * feasible portfolio with exactly `k` assets can beat the incumbent.
   */
  lemma PrunedCardinalityCannotWin(p: Problem, spec: ModelSpec, a: Assignment, k: nat, best: Incumbent)
    requires WellPosed(p) && N(p) >= 1 && p.gamma >= 0.0
    requires spec.fix == Some(Fix(Equality, k)) && Feasible(p, spec, a)
    requires 1 <= k <= N(p) && Prunes(UpperBound(p.inst.meanReturn, p.gamma, k), best)
    ensures Less(Finite(Objective(p, a)), BestObj(best))
  {
    ObjectiveWithinBound(p, spec, a, k);
  }
}
