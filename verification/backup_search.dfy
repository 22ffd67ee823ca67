/**
 * The earlier, looping version of the cardinality search: bottom-up passes
 * with exactly k assets and a 300 s limit are repeated, each followed by the
 * sweep, until every k is solved or a pass closes no further k. Its bound
 * list holds a placeholder 0 for k = 1; the search below uses the closed-form
 * bound for every k instead, and the placeholder is kept separately with the
 * input that shows the difference.
 */
module BackupSearch {
  import opened Wrappers
  import opened Sums
  import opened Instances
  import opened Graphs
  import opened Bounds
  import opened Portfolio
  import opened Outcomes
  import opened Search

  /** The solved flags of a list of records, as the loop compares them. */
  function Flags(sols: seq<Solution>): (f: seq<bool>)
    ensures |f| == |sols| && forall j :: 0 <= j < |sols| ==> (f[j] <==> Solved(sols[j]))
  {
    seq(|sols|, j requires 0 <= j < |sols| => Solved(sols[j]))
  }

  /** Every flag set in `a` is set in `b`. */
  predicate Within(a: seq<bool>, b: seq<bool>)
  {
    |a| == |b| && forall j :: 0 <= j < |a| && a[j] ==> b[j]
  }

  predicate AllSet(f: seq<bool>)
  {
    forall j :: 0 <= j < |f| ==> f[j]
  }

  /** Whether the loop stops after a pass ending with `flags`, having ended the one before with `prev`. */
  predicate Stops(prev: seq<bool>, flags: seq<bool>)
  {
    AllSet(flags) || prev == flags
  }

  /** The flags the loop held when pass p + 1 started: none before the first pass. */
  function Before(history: seq<seq<bool>>, p: nat): seq<bool>
    requires p < |history|
  {
    if p == 0 then [] else history[p - 1]
  }

  /** The flags the pass before the last one ended with; none before the first pass. */
  function Previous(history: seq<seq<bool>>): seq<bool>
  {
    if |history| <= 1 then [] else history[|history| - 2]
  }

  /** Pass p + 1 left solved k solved, and the loop went on after it. */
  predicate PassOk(history: seq<seq<bool>>, p: nat)
    requires p + 1 < |history|
  {
    Within(history[p], history[p + 1]) && !Stops(Before(history, p), history[p])
  }

  /**
   * The flags after each pass: every pass leaves solved k solved, and every
   * pass but the last closes some k without closing all of them.
   */
  predicate HistoryOk(history: seq<seq<bool>>, maxAssets: nat)
  {
    && (forall p :: 0 <= p < |history| ==> |history[p]| == maxAssets)
    && (forall p :: 0 <= p < |history| - 1 ==> PassOk(history, p))
  }

  /** The bound list as the earlier version builds it: 0 for k = 1, then the closed-form bound for k = 2 .. K. */
  function PlaceholderBounds(mean: seq<real>, gamma: real, maxAssets: nat): (ub: seq<real>)
    requires maxAssets <= |mean|
    ensures |ub| == if maxAssets == 0 then 1 else maxAssets
    ensures ub[0] == 0.0
    ensures forall j :: 1 <= j < maxAssets ==> ub[j] == UpperBound(mean, gamma, j + 1)
  {
    [0.0] + seq(if maxAssets == 0 then 0 else maxAssets - 1,
                j requires 0 <= j < maxAssets - 1 => UpperBound(mean, gamma, j + 2))
  }

  /**
   * Apart from k = 1 the placeholder list is the closed-form list; for k = 1
   * the closed-form bound is the best mean return, which the placeholder 0
   * understates whenever some asset has a positive mean return.
   */
  lemma PlaceholderMatchesBeyondFirst(mean: seq<real>, gamma: real, maxAssets: nat)
    requires 1 <= maxAssets <= |mean|
    ensures PlaceholderBounds(mean, gamma, maxAssets)[1..] == BoundList(mean, gamma, maxAssets)[1..]
    ensures BoundList(mean, gamma, maxAssets)[0] == Max(mean)
  {
    SameTail(PlaceholderBounds(mean, gamma, maxAssets), BoundList(mean, gamma, maxAssets));
    SingleAssetBound(mean, gamma);
  }

  lemma SameTail(a: seq<real>, b: seq<real>)
    requires |a| == |b| >= 1 && forall j :: 1 <= j < |a| ==> a[j] == b[j]
    ensures a[1..] == b[1..]
  {
    assert forall j :: 0 <= j < |a| - 1 ==> a[1..][j] == a[j + 1];
  }

  /** Two assets with mean returns 0.5 and 0.3 over one day, no graph edges, gamma 0.5. */
  function TwoAssets(): (p: Problem)
    ensures WellPosed(p) && N(p) == 2 && T(p) == 1 && p.gamma == 0.5
    ensures p.inst.meanReturn == [0.5, 0.3] && p.inst.dailyReturns == [[0.5, 0.3]] && p.rVar == 0.0
  {
    var inst := Instance(["A", "B"], [[0.5, 0.3]], [0.3], [0.5, 0.3], [[None, None], [None, None]], {(0, 1)}, 1);
    Problem(inst, Graph({0, 1}, {}), [], 0.0, 0.5, 1.0)
  }

  /** Holding the first asset alone. */
  lemma FirstAssetAlone(spec: ModelSpec) returns (a: Assignment)
    requires spec == ModelSpec(true, DeltaOff, DistOff, false, Some(Fix(Equality, 1)), Some(0.4))
    ensures Feasible(TwoAssets(), spec, a) && Objective(TwoAssets(), a) == 0.5
  {
    var p := TwoAssets();
    a := Assignment([1.0, 0.0], [true, false], [false]);
    assert Dot([0.5, 0.3], [1.0, 0.0]) == 0.5;
    assert ReturnRow(p, a, 0);
    assert !ForcedBad(p, 0) by {
      assert Max([0.5, 0.3][1..]) == 0.3;
    }
    assert Count([true, false]) == 1 by {
      assert [true, false][1..] == [false];
    }
    assert Sum([1.0, 0.0]) == 1.0 by {
      assert [1.0, 0.0][1..] == [0.0];
    }
    assert Linked(p, a);
    assert InDomain(p, a) && DeltaRow(p, spec.delta, a) && Diversified(p, spec.dist, a);
    assert Cardinality(spec.fix, a) && Objective(p, a) == 0.5;
  }

  /**
   * The placeholder prunes unsoundly: with two assets of mean returns 0.5 and
   * 0.3, an incumbent worth 0.4 makes the placeholder close k = 1, although
   * holding the first asset alone is feasible with exactly one asset and earns
   * 0.5; the closed-form bound for k = 1 does not prune it.
   */
  lemma PlaceholderClosesBetterPortfolio() returns (p: Problem, spec: ModelSpec, a: Assignment, best: Incumbent)
    ensures WellPosed(p) && N(p) == 2 && p.gamma >= 0.0
    ensures spec.fix == Some(Fix(Equality, 1)) && Feasible(p, spec, a)
    ensures Prunes(PlaceholderBounds(p.inst.meanReturn, p.gamma, N(p))[0], best)
    ensures Less(BestObj(best), Finite(Objective(p, a)))
    ensures !Prunes(UpperBound(p.inst.meanReturn, p.gamma, 1), best)
  {
    p := TwoAssets();
    best := Incumbent(Record(true, Optimal, None, Some(Point(map[0 := 0.5, 1 := 0.5], {0, 1}, 0.4))), 2, true);
    spec := ModelSpec(true, DeltaOff, DistOff, false, Some(Fix(Equality, 1)), Some(0.4));
    a := FirstAssetAlone(spec);
    SingleAssetBound(p.inst.meanReturn, p.gamma);
    assert Max([0.5, 0.3][1..]) == 0.3;
  }

  /** A pass as the loop ran it: where it started, what it visited and wrote, its incumbent, and the records after the sweep. */
  datatype PassRecord = PassRecord(start: seq<Solution>, startBest: Incumbent, steps: seq<Step>,
                                   written: seq<Solution>, endBest: Incumbent, swept: seq<Solution>)

  /** The incumbent names a slot of `sols` whenever it claims to be stored there. */
  predicate Resyncable(best: Incumbent, sols: seq<Solution>)
  {
    best.Incumbent? && best.inList ==> 1 <= best.idx <= |sols|
  }

  /**
   * Pass `pass` from its start: the engine's trace with exactly k assets and
   * 300 s, the incumbent the chain of steps ends with, and the sweep of what
   * it wrote against that incumbent.
   */
  ghost predicate Ran(p: PassRecord, pass: nat, ub: seq<real>, engine: Engine, vertices: set<nat>)
    requires Shaped(engine, vertices)
  {
    && PassTrace(p.start, p.startBest, p.steps, p.written, ub, engine, vertices, PassConfig(Backup, Equality, 300, pass))
    && p.endBest == ChainEnd(p.startBest, p.steps, ub, engine, vertices)
    && (forall j :: 0 <= j < |p.written| ==> p.written[j].Record? && Coherent(p.written[j]))
    && p.swept == UpdateSolutions(p.endBest, p.written)
  }

  /** Pass `p` resumed where pass `q` stopped: from its swept records and its incumbent re-read from them. */
  predicate Resumes(q: PassRecord, p: PassRecord)
  {
    && p.start == q.swept
    && Resyncable(q.endBest, q.swept)
    && p.startBest == Resync(q.endBest, q.swept)
  }

  /** Pass i + 1 ran from all slots pending and no incumbent, or from where pass i stopped. */
  ghost predicate PassRan(passes: seq<PassRecord>, i: nat, ub: seq<real>, engine: Engine, vertices: set<nat>)
    requires i < |passes| && Shaped(engine, vertices)
  {
    && (i == 0 ==> passes[0].start == seq(|ub|, _ => Pending) && passes[0].startBest == Initial)
    && (i > 0 ==> Resumes(passes[i - 1], passes[i]))
    && Ran(passes[i], i + 1, ub, engine, vertices)
  }

  ghost predicate AllRan(passes: seq<PassRecord>, ub: seq<real>, engine: Engine, vertices: set<nat>)
    requires Shaped(engine, vertices)
  {
    forall i :: 0 <= i < |passes| ==> PassRan(passes, i, ub, engine, vertices)
  }

  /** Where the loop stands: the records and incumbent the last pass left, or the initial ones before any pass. */
  ghost predicate StandsAt(passes: seq<PassRecord>, sols: seq<Solution>, best: Incumbent, ub: seq<real>)
  {
    && (|passes| == 0 ==> sols == seq(|ub|, _ => Pending) && best == Initial)
    && (|passes| > 0 ==>
          && sols == passes[|passes| - 1].swept
          && Resyncable(passes[|passes| - 1].endBest, sols)
          && best == Resync(passes[|passes| - 1].endBest, sols))
  }

  /**
   * After at least one pass: `prev` holds the last flags, the loop did not
   * stop there, and every pass so far closed at least one new k.
   */
  predicate Progress(history: seq<seq<bool>>, prev: seq<bool>, sols: seq<Solution>, maxAssets: nat)
  {
    && HistoryOk(history, maxAssets)
    && (|history| == 0 ==> prev == [])
    && (|history| > 0 ==>
          && prev == history[|history| - 1] == Flags(sols)
          && (forall j :: 0 <= j < |sols| ==> sols[j].Record?)
          && !Stops(Previous(history), prev)
          && |history| <= Count(prev) + 1)
  }

  /** The sweep only sets flags, and a pass keeps solved records, so solved k stay solved. */
  lemma SweepKeepsSolved(p: PassRecord, pass: nat, ub: seq<real>, engine: Engine, vertices: set<nat>)
    requires Shaped(engine, vertices) && Ran(p, pass, ub, engine, vertices)
    ensures Within(Flags(p.start), Flags(p.swept))
  {
    forall j | 0 <= j < |p.start| && Flags(p.start)[j]
      ensures Flags(p.swept)[j]
    {
      assert p.written[j] == p.start[j];
    }
  }

  /** Appending flags that contain the last ones, after a pass that did not stop the loop, keeps the history well formed. */
  lemma ExtendHistory(history: seq<seq<bool>>, flags: seq<bool>, maxAssets: nat)
    requires HistoryOk(history, maxAssets) && |flags| == maxAssets
    requires |history| > 0 ==> Within(history[|history| - 1], flags)
    requires |history| > 0 ==> !Stops(Previous(history), history[|history| - 1])
    ensures HistoryOk(history + [flags], maxAssets)
  {
    var h := history + [flags];
    forall p | 0 <= p < |h|
      ensures |h[p]| == maxAssets
    {
      if p < |history| {
        assert h[p] == history[p];
      }
    }
    forall p | 0 <= p < |h| - 1
      ensures PassOk(h, p)
    {
      assert h[p] == history[p] && Before(h, p) == Before(history, p);
      if p + 1 < |history| {
        assert h[p + 1] == history[p + 1];
        assert PassOk(history, p);
      } else {
        assert h[p + 1] == flags && p == |history| - 1;
        assert Before(history, p) == Previous(history);
      }
    }
  }

  /** Appending the flags of a pass that did not stop the loop keeps the progress facts. */
  lemma Advance(history: seq<seq<bool>>, prev: seq<bool>, sols: seq<Solution>, swept: seq<Solution>,
                maxAssets: nat)
    requires Progress(history, prev, sols, maxAssets) && |sols| == |swept| == maxAssets
    requires forall j :: 0 <= j < maxAssets ==> swept[j].Record?
    requires Within(Flags(sols), Flags(swept))
    ensures HistoryOk(history + [Flags(swept)], maxAssets)
    ensures !Stops(prev, Flags(swept)) ==> Progress(history + [Flags(swept)], Flags(swept), swept, maxAssets)
  {
    var flags := Flags(swept);
    ExtendHistory(history, flags, maxAssets);
    var h := history + [flags];
    if !Stops(prev, flags) {
      assert h[|h| - 1] == flags;
      if |history| > 0 {
        assert h[|h| - 2] == prev;
        CountGrows(prev, flags);
      } else {
        CountAtMostLength(flags);
      }
      assert Previous(h) == prev;
    }
  }

  /** A pass that resumes where the loop stands extends the passes so far. */
  lemma {:induction false} RanSnoc(passes: seq<PassRecord>, p: PassRecord, sols: seq<Solution>, best: Incumbent,
                                   ub: seq<real>, engine: Engine, vertices: set<nat>)
    requires Shaped(engine, vertices) && AllRan(passes, ub, engine, vertices) && StandsAt(passes, sols, best, ub)
    requires p.start == sols && p.startBest == best && Ran(p, |passes| + 1, ub, engine, vertices)
    requires Resyncable(p.endBest, p.swept)
    ensures AllRan(passes + [p], ub, engine, vertices)
    ensures StandsAt(passes + [p], p.swept, Resync(p.endBest, p.swept), ub)
  {
    var ps := passes + [p];
    forall i | 0 <= i < |ps|
      ensures PassRan(ps, i, ub, engine, vertices)
    {
      if i < |passes| {
        assert ps[i] == passes[i];
        assert i > 0 ==> ps[i - 1] == passes[i - 1];
        assert PassRan(passes, i, ub, engine, vertices);
      } else if i > 0 {
        assert ps[i - 1] == passes[|passes| - 1];
      }
    }
  }

  /** One pass with exactly k assets and 300 s from where the loop stands, then the sweep. */
  method PassAndSweep(mean: seq<real>, gamma: real, sols: seq<Solution>, best: Incumbent, pass: nat,
                      vertices: set<nat>, engine: Engine)
    returns (p: PassRecord)
    requires |sols| <= |mean| && Shaped(engine, vertices)
    requires Settled(sols, BoundList(mean, gamma, |sols|), best)
    requires pass == 1 ==> sols == seq(|sols|, _ => Pending)
    requires pass != 1 ==> forall j :: 0 <= j < |sols| ==> sols[j].Record?
    ensures p.start == sols && p.startBest == best
    ensures Ran(p, pass, BoundList(mean, gamma, |sols|), engine, vertices)
    ensures Resyncable(p.endBest, p.swept)
    ensures Settled(p.swept, BoundList(mean, gamma, |sols|), Resync(p.endBest, p.swept))
    ensures forall j :: 0 <= j < |sols| ==> p.swept[j].Record?
    ensures Within(Flags(sols), Flags(p.swept))
  {
    var ub := BoundList(mean, gamma, |sols|);
    var cfg := PassConfig(Backup, Equality, 300, pass);
    var written, endBest, steps := TracedPass(mean, gamma, sols, best, vertices, engine, cfg);
    assert forall j :: 0 <= j < |sols| ==> written[j].Record? by {
      if pass == 1 {
        AllPendingUnsolved(|sols|);
      }
    }
    SweepSettled(written, ub, endBest);
    p := PassRecord(sols, best, steps, written, endBest, UpdateSolutions(endBest, written));
    SweepKeepsSolved(p, pass, ub, engine, vertices);
  }

  /** The next pass, appended to the passes so far. */
  method NextPass(mean: seq<real>, gamma: real, sols: seq<Solution>, best: Incumbent, passes: seq<PassRecord>,
                  vertices: set<nat>, engine: Engine)
    returns (passes2: seq<PassRecord>)
    requires |sols| <= |mean| && Shaped(engine, vertices)
    requires Settled(sols, BoundList(mean, gamma, |sols|), best)
    requires AllRan(passes, BoundList(mean, gamma, |sols|), engine, vertices)
    requires StandsAt(passes, sols, best, BoundList(mean, gamma, |sols|))
    requires |passes| > 0 ==> forall j :: 0 <= j < |sols| ==> sols[j].Record?
    ensures |passes2| == |passes| + 1 && passes2[..|passes|] == passes && passes2[|passes|].start == sols
    ensures AllRan(passes2, BoundList(mean, gamma, |sols|), engine, vertices)
    ensures Resyncable(passes2[|passes|].endBest, passes2[|passes|].swept)
    ensures StandsAt(passes2, passes2[|passes|].swept, Resync(passes2[|passes|].endBest, passes2[|passes|].swept),
                     BoundList(mean, gamma, |sols|))
    ensures Settled(passes2[|passes|].swept, BoundList(mean, gamma, |sols|),
                    Resync(passes2[|passes|].endBest, passes2[|passes|].swept))
    ensures forall j :: 0 <= j < |sols| ==> passes2[|passes|].swept[j].Record?
    ensures Within(Flags(sols), Flags(passes2[|passes|].swept))
  {
    var p := PassAndSweep(mean, gamma, sols, best, |passes| + 1, vertices, engine);
    RanSnoc(passes, p, sols, best, BoundList(mean, gamma, |sols|), engine, vertices);
    passes2 := passes + [p];
    assert passes2[..|passes|] == passes;
  }

  /** One iteration of the loop: a pass and its sweep, and the bookkeeping of flags and passes. */
  method Round(mean: seq<real>, gamma: real, sols: seq<Solution>, best: Incumbent, history: seq<seq<bool>>,
               prev: seq<bool>, passes: seq<PassRecord>, vertices: set<nat>, engine: Engine)
    returns (sols2: seq<Solution>, best2: Incumbent, history2: seq<seq<bool>>, passes2: seq<PassRecord>, stop: bool)
    requires |sols| <= |mean| && Shaped(engine, vertices)
    requires Settled(sols, BoundList(mean, gamma, |sols|), best) && Progress(history, prev, sols, |sols|)
    requires |passes| == |history| && AllRan(passes, BoundList(mean, gamma, |sols|), engine, vertices)
    requires StandsAt(passes, sols, best, BoundList(mean, gamma, |sols|))
    ensures |sols2| == |sols| && Settled(sols2, BoundList(mean, gamma, |sols|), best2)
    ensures |passes2| == |passes| + 1 && passes2[..|passes|] == passes && passes2[|passes|].swept == sols2
    ensures AllRan(passes2, BoundList(mean, gamma, |sols|), engine, vertices)
    ensures StandsAt(passes2, sols2, best2, BoundList(mean, gamma, |sols|))
    ensures history2 == history + [Flags(sols2)] && HistoryOk(history2, |sols|)
    ensures stop <==> Stops(prev, Flags(sols2))
    ensures stop ==> forall j :: 0 <= j < |sols2| ==> sols2[j].Record?
    ensures stop ==> Stops(Previous(history2), Flags(sols2))
    ensures !stop ==> Progress(history2, Flags(sols2), sols2, |sols|)
  {
    passes2 := NextPass(mean, gamma, sols, best, passes, vertices, engine);
    sols2, best2 := passes2[|passes|].swept, Resync(passes2[|passes|].endBest, passes2[|passes|].swept);
    Advance(history, prev, sols, sols2, |sols|);
    stop := Stops(prev, Flags(sols2));
    history2 := history + [Flags(sols2)];
    assert Previous(history2) == prev by {
      assert |history2| > 1 ==> history2[|history2| - 2] == history[|history| - 1];
    }
  }

  /** A loop that has not stopped has run at most one pass per k, since each pass closed a new one without closing all. */
  lemma HistoryBound(history: seq<seq<bool>>, prev: seq<bool>, sols: seq<Solution>, maxAssets: nat)
    requires Progress(history, prev, sols, maxAssets)
    ensures |history| <= maxAssets
  {
    if |history| > 0 {
      assert |prev| == maxAssets;
      CountAtMostLength(prev);
      assert !AllSet(prev);
    }
  }

  /** The passes until one solves every k or closes nothing new, with the flags after each. */
  method Passes(mean: seq<real>, gamma: real, maxAssets: nat, vertices: set<nat>, engine: Engine)
    returns (sols: seq<Solution>, best: Incumbent, history: seq<seq<bool>>, passes: seq<PassRecord>)
    requires maxAssets <= |mean| && Shaped(engine, vertices)
    ensures Settled(sols, BoundList(mean, gamma, maxAssets), best)
    ensures forall j :: 0 <= j < |sols| ==> sols[j].Record?
    ensures 1 <= |history| <= maxAssets + 1 && HistoryOk(history, maxAssets)
    ensures history[|history| - 1] == Flags(sols)
    ensures Stops(Previous(history), Flags(sols))
    ensures |passes| == |history| && AllRan(passes, BoundList(mean, gamma, maxAssets), engine, vertices)
    ensures StandsAt(passes, sols, best, BoundList(mean, gamma, maxAssets))
    ensures forall i :: 0 <= i < |passes| ==> history[i] == Flags(passes[i].swept)
  {
    sols := seq(maxAssets, _ => Pending);
    best := Initial;
    var prev: seq<bool> := [];
    history := [];
    passes := [];
    while true
      invariant |sols| == maxAssets && Settled(sols, BoundList(mean, gamma, maxAssets), best)
      invariant Progress(history, prev, sols, maxAssets)
      invariant |passes| == |history| && AllRan(passes, BoundList(mean, gamma, maxAssets), engine, vertices)
      invariant StandsAt(passes, sols, best, BoundList(mean, gamma, maxAssets))
      invariant forall i :: 0 <= i < |passes| ==> history[i] == Flags(passes[i].swept)
      decreases maxAssets + 1 - |history|
    {
      HistoryBound(history, prev, sols, maxAssets);
      var stop, history2, passes2;
      sols, best, history2, passes2, stop := Round(mean, gamma, sols, best, history, prev, passes, vertices, engine);
      FlagsSnoc(history, passes, history2, passes2, sols);
      history, passes := history2, passes2;
      if stop {
        break;
      }
      prev := Flags(sols);
    }
  }

  lemma FlagsSnoc(history: seq<seq<bool>>, passes: seq<PassRecord>, history2: seq<seq<bool>>,
                  passes2: seq<PassRecord>, sols: seq<Solution>)
    requires |passes| == |history| && forall i :: 0 <= i < |passes| ==> history[i] == Flags(passes[i].swept)
    requires history2 == history + [Flags(sols)] && |passes2| == |passes| + 1
    requires passes2[..|passes|] == passes && passes2[|passes|].swept == sols
    ensures forall i :: 0 <= i < |passes2| ==> history2[i] == Flags(passes2[i].swept)
  {
    forall i | 0 <= i < |passes2|
      ensures history2[i] == Flags(passes2[i].swept)
    {
      if i < |passes| {
        assert passes2[i] == passes2[..|passes|][i];
      }
    }
  }

  /** Read through the closed-form bounds, every step of every pass pruned iff its bound was below the incumbent of that moment. */
  lemma PassesMeaning(passes: seq<PassRecord>, mean: seq<real>, gamma: real, maxAssets: nat, engine: Engine,
                      vertices: set<nat>)
    requires maxAssets <= |mean| && Shaped(engine, vertices)
    requires AllRan(passes, BoundList(mean, gamma, maxAssets), engine, vertices)
    ensures forall i, s :: 0 <= i < |passes| && 0 <= s < |passes[i].steps| ==>
      && 1 <= passes[i].steps[s].k <= maxAssets
      && (passes[i].steps[s].request.None? <==>
            Prunes(UpperBound(mean, gamma, passes[i].steps[s].k), passes[i].steps[s].before))
      && (passes[i].steps[s].request.Some? ==>
            passes[i].steps[s].request.value ==
              Request(passes[i].steps[s].k, Equality, 300, WarmStart(Backup, passes[i].steps[s].before), i + 1))
  {
    var ub := BoundList(mean, gamma, maxAssets);
    forall i | 0 <= i < |passes|
      ensures forall s :: 0 <= s < |passes[i].steps| ==>
        && 1 <= passes[i].steps[s].k <= maxAssets
        && (passes[i].steps[s].request.None? <==>
              Prunes(UpperBound(mean, gamma, passes[i].steps[s].k), passes[i].steps[s].before))
        && (passes[i].steps[s].request.Some? ==>
              passes[i].steps[s].request.value ==
                Request(passes[i].steps[s].k, Equality, 300, WarmStart(Backup, passes[i].steps[s].before), i + 1))
    {
      var p := passes[i];
      var cfg := PassConfig(Backup, Equality, 300, i + 1);
      assert PassRan(passes, i, ub, engine, vertices);
      StepsVisited(p.start, p.startBest, p.steps, p.written, ub, engine, vertices, cfg);
      VisitedMeaning(p.steps, mean, gamma, ub, cfg);
    }
  }

  /**
   * The looping search over the closed-form bounds. `history` holds the
   * flags after each pass and `passes` what each pass started from, visited,
   * wrote and swept.
   */
  method SolveIterative(mean: seq<real>, gamma: real, maxAssets: nat, vertices: set<nat>, engine: Engine)
    returns (r: Result<Report, ReportError>, sols: seq<Solution>, best: Incumbent, history: seq<seq<bool>>,
             passes: seq<PassRecord>)
    requires maxAssets <= |mean| && Shaped(engine, vertices)
    ensures |sols| == maxAssets
    ensures 1 <= |history| <= maxAssets + 1
    ensures HistoryOk(history, maxAssets)
    ensures history[|history| - 1] == Flags(sols)
    ensures Stops(Previous(history), Flags(sols))
    ensures |passes| == |history| && forall i :: 0 <= i < |passes| ==> history[i] == Flags(passes[i].swept)
    ensures AllRan(passes, BoundList(mean, gamma, maxAssets), engine, vertices)
    ensures StandsAt(passes, sols, best, BoundList(mean, gamma, maxAssets))
    ensures forall j :: 0 <= j < |sols| ==> sols[j].Record?
    ensures r == SetIterResults(best, sols, Dash)
    ensures forall i, s :: 0 <= i < |passes| && 0 <= s < |passes[i].steps| ==>
      && 1 <= passes[i].steps[s].k <= maxAssets
      && (passes[i].steps[s].request.None? <==>
            Prunes(UpperBound(mean, gamma, passes[i].steps[s].k), passes[i].steps[s].before))
      && (passes[i].steps[s].request.Some? ==>
            passes[i].steps[s].request.value ==
              Request(passes[i].steps[s].k, Equality, 300, WarmStart(Backup, passes[i].steps[s].before), i + 1))
    ensures r.Success? ==> forall j :: 0 <= j < maxAssets ==> AtMost(SolObj(sols[j]), SolObj(r.value.best))
    ensures r.Success? ==> forall j :: 0 <= j < maxAssets && sols[j].Record? && sols[j].status == PrunedByBound ==>
      Less(Finite(UpperBound(mean, gamma, j + 1)), SolObj(r.value.best))
    ensures r.Success? ==> (r.value.status == AllSolved <==> forall j :: 0 <= j < maxAssets ==> Solved(sols[j]))
    ensures r.Failure? ==> forall j :: 0 <= j < maxAssets ==> SolObj(sols[j]) == NegInf
  {
    sols, best, history, passes := Passes(mean, gamma, maxAssets, vertices, engine);
    PassesMeaning(passes, mean, gamma, maxAssets, engine, vertices);
    r := SetIterResults(best, sols, Dash);
    Search.ReportFacts(r, sols, best, Dash, mean, gamma, BoundList(mean, gamma, maxAssets));
  }
}
