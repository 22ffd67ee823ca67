/**
 * The per-k solve records, the engine's status mapping, the incumbent update,
 * the unsolved-entry sweep, and the final report.
 */
module Outcomes {
  import opened Wrappers

  /** A real or minus infinity, the value of "no objective yet". */
  datatype ExtReal = NegInf | Finite(v: real)

  predicate Less(a: ExtReal, b: ExtReal)
  {
    match (a, b)
    case (NegInf, NegInf) => false
    case (NegInf, Finite(_)) => true
    case (Finite(_), NegInf) => false
    case (Finite(u), Finite(w)) => u < w
  }

  predicate AtMost(a: ExtReal, b: ExtReal)
  {
    !Less(b, a)
  }

  datatype Status = Infeasible | TimeLimit | Optimal | PrunedByBound

  /** A portfolio read back from the engine: weights per vertex, the selected vertices and the objective. */
  datatype Point = Point(weights: map<nat, real>, selected: set<nat>, objVal: real)

  /**
   * The record kept for one cardinality `k`. `Pending` is the empty record a
   * slot holds before its first visit; a bound is present on every record
   * but an optimal one, a point on every record that found a portfolio.
   */
  datatype Solution =
    | Pending
    | Record(solved: bool, status: Status, objBound: Option<real>, point: Option<Point>)

  /** What the engine reports after a solve. */
  datatype EngineResult = EngineResult(
    status: int, solCount: nat, objVal: real, objBound: real, x: seq<real>, y: seq<bool>)

  /** The engine codes for infeasible, infeasible-or-unbounded and stopped on the objective bound. */
  const InfeasibleCodes: set<int> := {3, 4, 15}
  const TimeLimitCode: int := 9

  function PointOf(res: EngineResult, vertices: set<nat>): (pt: Point)
    requires forall i :: i in vertices ==> i < |res.x| && i < |res.y|
    ensures pt.weights.Keys == vertices && pt.objVal == res.objVal
    ensures forall i :: i in vertices ==> pt.weights[i] == res.x[i]
    ensures forall i :: i in pt.selected <==> i in vertices && res.y[i]
  {
    Point(map i | i in vertices :: res.x[i], (set i | i in vertices && res.y[i]), res.objVal)
  }

  /**
   * The outcomes the program can read back: on a status other than the
   * infeasible and time-limit codes it reads the solution unconditionally.
   */
  predicate Readable(res: EngineResult)
  {
    res.status in InfeasibleCodes || res.status == TimeLimitCode || res.solCount > 0
  }

  /** Translates an engine outcome into the record kept for `k`. */
  function FromEngine(res: EngineResult, vertices: set<nat>): (s: Solution)
    requires forall i :: i in vertices ==> i < |res.x| && i < |res.y|
    ensures s.Record?
    ensures s.solved <==> res.status != TimeLimitCode
    ensures s.status == Infeasible <==> res.status in InfeasibleCodes
    ensures s.status == TimeLimit <==> res.status == TimeLimitCode
    ensures s.status == Optimal <==> res.status !in InfeasibleCodes && res.status != TimeLimitCode
    ensures s.objBound.Some? <==> s.status != Optimal
    ensures s.objBound.Some? ==> s.objBound.value == res.objBound
    ensures s.point.Some? <==> s.status == Optimal || (s.status == TimeLimit && res.solCount > 0)
    ensures s.point.Some? ==> s.point.value == PointOf(res, vertices)
    ensures Readable(res) && s.point.Some? ==> res.solCount > 0
  {
    if res.status in InfeasibleCodes then
      Record(true, Infeasible, Some(res.objBound), None)
    else if res.status == TimeLimitCode then
      Record(false, TimeLimit, Some(res.objBound),
             if res.solCount > 0 then Some(PointOf(res, vertices)) else None)
    else
      Record(true, Optimal, None, Some(PointOf(res, vertices)))
  }

  /** The record written for a `k` skipped because its bound is below the incumbent. */
  function Pruned(bound: real): Solution
  {
    Record(true, PrunedByBound, Some(bound), None)
  }

  /**
   * The shape every visited record has: one left unsolved is a time-limit
   * record and carries a bound, so the sweep below can read it.
   */
  predicate Coherent(s: Solution)
  {
    s.Record? ==>
      && (!s.solved ==> s.status == TimeLimit && s.objBound.Some?)
      && (s.status == Optimal ==> s.point.Some?)
      && (s.status != Optimal ==> s.objBound.Some?)
  }

  lemma EngineRecordsCoherent(res: EngineResult, vertices: set<nat>, bound: real)
    requires forall i :: i in vertices ==> i < |res.x| && i < |res.y|
    ensures Coherent(FromEngine(res, vertices)) && Coherent(Pruned(bound))
  {
  }

  /** The objective of a record; a record without a portfolio counts as minus infinity. */
  function SolObj(s: Solution): ExtReal
  {
    if s.Record? && s.point.Some? then Finite(s.point.value.objVal) else NegInf
  }

  /**
   * The best record so far and the `k` it came from. `inList` says the
   * incumbent is the very record stored for `idx`, so later changes to that
   * slot's solved flag are changes to the incumbent too.
   */
  datatype Incumbent = Initial | Incumbent(sol: Solution, idx: nat, inList: bool)

  function BestObj(b: Incumbent): ExtReal
  {
    if b.Initial? then NegInf else SolObj(b.sol)
  }

  /** Replaces the incumbent only when `cur` is strictly better; `cur` has just been stored at `k`. */
  function GetBest(best: Incumbent, cur: Solution, k: nat): (r: Incumbent)
    ensures r == best || r == Incumbent(cur, k, true)
    ensures r != best ==> Less(BestObj(best), SolObj(cur))
    ensures Less(BestObj(best), SolObj(cur)) ==> r == Incumbent(cur, k, true)
  {
    if Less(BestObj(best), SolObj(cur)) then Incumbent(cur, k, true) else best
  }

  /** The incumbent's objective never decreases, and afterwards it is at least the new record's. */
  lemma GetBestMonotone(best: Incumbent, cur: Solution, k: nat)
    ensures AtMost(BestObj(best), BestObj(GetBest(best, cur, k)))
    ensures AtMost(SolObj(cur), BestObj(GetBest(best, cur, k)))
    ensures BestObj(GetBest(best, cur, k)) == BestObj(best) || BestObj(GetBest(best, cur, k)) == SolObj(cur)
  {
  }

  /** An incumbent that has replaced the initial one always holds a portfolio. */
  lemma GetBestHoldsPoint(best: Incumbent, cur: Solution, k: nat)
    requires best.Incumbent? ==> SolObj(best.sol).Finite?
    ensures GetBest(best, cur, k).Incumbent? ==> SolObj(GetBest(best, cur, k).sol).Finite?
  {
  }

  predicate Solved(s: Solution)
  {
    s.Record? && s.solved
  }

  /** An unsolved record whose bound the incumbent already meets. */
  predicate Closable(best: Incumbent, s: Solution)
  {
    s.Record? && !s.solved && s.objBound.Some? && AtMost(Finite(s.objBound.value), BestObj(best))
  }

  /** Marks as solved every unsolved record whose bound the incumbent meets; nothing else changes. */
  function UpdateSolutions(best: Incumbent, sols: seq<Solution>): (r: seq<Solution>)
    requires forall j :: 0 <= j < |sols| ==> sols[j].Record? && Coherent(sols[j])
    ensures |r| == |sols|
    ensures forall j :: 0 <= j < |r| ==> r[j].Record? && Coherent(r[j])
    ensures forall j :: 0 <= j < |r| ==> (Solved(r[j]) <==> Solved(sols[j]) || Closable(best, sols[j]))
    ensures forall j :: 0 <= j < |r| ==> r[j] == sols[j].(solved := r[j].solved)
  {
    var r := seq(|sols|, j requires 0 <= j < |sols| =>
      if Closable(best, sols[j]) then sols[j].(solved := true) else sols[j]);
    assert forall j :: 0 <= j < |r| ==> r[j].Record? && Coherent(r[j]) by {
      forall j | 0 <= j < |r|
        ensures r[j].Record? && Coherent(r[j])
      {
        assert Coherent(sols[j]);
      }
    }
    r
  }

  /** The sweep never unsets a solved flag. */
  lemma UpdateSolutionsMonotone(best: Incumbent, sols: seq<Solution>, j: nat)
    requires forall i :: 0 <= i < |sols| ==> sols[i].Record? && Coherent(sols[i])
    requires j < |sols| && Solved(sols[j])
    ensures UpdateSolutions(best, sols)[j] == sols[j]
  {
  }

  /** Sweeping twice with the same incumbent changes nothing more. */
  lemma UpdateSolutionsIdempotent(best: Incumbent, sols: seq<Solution>)
    requires forall i :: 0 <= i < |sols| ==> sols[i].Record? && Coherent(sols[i])
    ensures UpdateSolutions(best, UpdateSolutions(best, sols)) == UpdateSolutions(best, sols)
  {
    var once := UpdateSolutions(best, sols);
    var twice := UpdateSolutions(best, once);
    forall j | 0 <= j < |sols|
      ensures twice[j] == once[j]
    {
      if !Solved(once[j]) {
        assert !Closable(best, sols[j]);
        assert once[j] == sols[j];
      }
    }
  }

  /** With no incumbent the sweep changes nothing. */
  lemma UpdateWithoutIncumbent(sols: seq<Solution>)
    requires forall i :: 0 <= i < |sols| ==> sols[i].Record? && Coherent(sols[i])
    ensures UpdateSolutions(Initial, sols) == sols
  {
    var r := UpdateSolutions(Initial, sols);
    forall j | 0 <= j < |sols|
      ensures r[j] == sols[j]
    {
      assert !Closable(Initial, sols[j]);
    }
  }

  /** After a sweep the incumbent, if it is a stored record, is read back from its slot. */
  function Resync(best: Incumbent, sols: seq<Solution>): (r: Incumbent)
    requires best.Incumbent? && best.inList ==> 1 <= best.idx <= |sols|
    ensures r.Initial? <==> best.Initial?
    ensures r.Incumbent? ==> r.idx == best.idx && r.inList == best.inList
    ensures r.Incumbent? && r.inList ==> r.sol == sols[r.idx - 1]
    ensures r.Incumbent? && !r.inList ==> r.sol == best.sol
  {
    if best.Incumbent? && best.inList then best.(sol := sols[best.idx - 1]) else best
  }

  /** A report cell: a number, or the status name where the record has none. */
  datatype Label = Value(v: real) | Text(s: string)

  function StatusName(s: Status): string
  {
    match s
    case Infeasible => "Inf"
    case TimeLimit => "TL"
    case Optimal => "Optimal"
    case PrunedByBound => "Inf-Ub"
  }

  datatype FinalStatus = AllSolved | Unsolved

  datatype Report = Report(
    best: Solution,
    objVals: seq<Label>,
    objBounds: seq<Label>,
    solvedIters: seq<bool>,
    bestIdx: nat,
    status: FinalStatus)

  datatype ReportError = NoIncumbent

  /** Which placeholder a bound-less record shows: its status name, or a dash in the earlier version. */
  datatype BoundPlaceholder = StatusText | Dash

  function ObjLabel(s: Solution): Label
    requires s.Record?
  {
    if s.point.Some? then Value(s.point.value.objVal) else Text(StatusName(s.status))
  }

  function BoundLabel(s: Solution, placeholder: BoundPlaceholder): Label
    requires s.Record?
  {
    if s.objBound.Some? then Value(s.objBound.value)
    else if placeholder == StatusText then Text(StatusName(s.status))
    else Text("-")
  }

  /**
   * Builds the per-k summary. Reading the incumbent's `k` fails when nothing
   * ever beat minus infinity; the status is "Optimal" iff every record is solved.
   */
  function SetIterResults(best: Incumbent, sols: seq<Solution>, placeholder: BoundPlaceholder)
    : (r: Result<Report, ReportError>)
    requires forall j :: 0 <= j < |sols| ==> sols[j].Record?
    ensures r.Failure? <==> best.Initial?
    ensures r.Success? ==> r.value.bestIdx == best.idx && r.value.best == best.sol
    ensures r.Success? ==> |r.value.objVals| == |r.value.objBounds| == |r.value.solvedIters| == |sols|
    ensures r.Success? ==> forall j :: 0 <= j < |sols| ==> r.value.solvedIters[j] == sols[j].solved
    ensures r.Success? ==> forall j :: 0 <= j < |sols| ==>
      (r.value.objVals[j].Value? <==> SolObj(sols[j]).Finite?)
    ensures r.Success? ==> forall j :: 0 <= j < |sols| ==>
      r.value.objVals[j] == ObjLabel(sols[j]) && r.value.objBounds[j] == BoundLabel(sols[j], placeholder)
    ensures r.Success? ==> (r.value.status == AllSolved <==> forall j :: 0 <= j < |sols| ==> Solved(sols[j]))
  {
    if best.Initial? then Failure(NoIncumbent)
    else
      var solvedIters := seq(|sols|, j requires 0 <= j < |sols| => sols[j].solved);
      Success(Report(
        best.sol,
        seq(|sols|, j requires 0 <= j < |sols| => ObjLabel(sols[j])),
        seq(|sols|, j requires 0 <= j < |sols| => BoundLabel(sols[j], placeholder)),
        solvedIters,
        best.idx,
        if forall j :: 0 <= j < |solvedIters| ==> solvedIters[j] then AllSolved else Unsolved))
  }

  /** A report cell shows the number when there is one and otherwise names the record's status. */
  lemma LabelsDescribeRecords(s: Solution, placeholder: BoundPlaceholder)
    requires s.Record?
    ensures ObjLabel(s).Text? ==> ObjLabel(s).s == StatusName(s.status)
    ensures BoundLabel(s, placeholder).Text? ==> s.objBound.None?
    ensures BoundLabel(s, placeholder) == Text("Optimal") ==> placeholder == StatusText && s.status == Optimal
  {
  }
}
