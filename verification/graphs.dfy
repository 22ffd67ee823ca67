/**
 * The correlation graph over asset indices, its k-th power by bounded
 * reachability, and the removal of negative-mean vertices, composed in the
 * order the system uses them: power first, filter after.
 */
module Graphs {
  import opened Wrappers
  import opened Instances

  /** An undirected edge, stored once with the smaller endpoint first. */
  datatype Edge = Edge(lo: nat, hi: nat)

  datatype Graph = Graph(vertices: set<nat>, edges: set<Edge>)

  /** The stored form of the edge between `u` and `v`. */
  function Link(u: nat, v: nat): Edge
  {
    if u <= v then Edge(u, v) else Edge(v, u)
  }

  /** No self-loops, every edge stored in order, endpoints present. */
  predicate WellFormed(g: Graph)
  {
    forall e :: e in g.edges ==> e.lo < e.hi && e.lo in g.vertices && e.hi in g.vertices
  }

  predicate Adj(g: Graph, u: nat, v: nat)
  {
    u != v && Link(u, v) in g.edges
  }

  lemma AdjEndpoints(g: Graph, u: nat, v: nat)
    requires WellFormed(g) && Adj(g, u, v)
    ensures u in g.vertices && v in g.vertices && Adj(g, v, u)
  {
  }

  /** A correlation above the threshold; a NaN entry never is. */
  predicate Exceeds(c: Option<real>, threshold: real)
  {
    c.Some? && c.value > threshold
  }

  /** The indices below `n`. */
  function Range(n: nat): (r: set<nat>)
    ensures forall i: nat :: i in r <==> i < n
  {
    if n == 0 then {} else Range(n - 1) + {n - 1}
  }

  /** One vertex per asset; an edge for every listed pair whose correlation exceeds the threshold. */
  function CorrelationGraph(inst: Instance, threshold: real): (g: Graph)
    requires Valid(inst)
    ensures WellFormed(g)
    ensures g.vertices == Range(|inst.assets|)
    ensures forall e :: e in g.edges <==>
      (e.lo, e.hi) in inst.assetPairs && Exceeds(inst.correlation[e.lo][e.hi], threshold)
  {
    Graph(Range(|inst.assets|),
          set p | p in inst.assetPairs && Exceeds(inst.correlation[p.0][p.1], threshold) :: Edge(p.0, p.1))
  }

  /** With the standard pair set, two assets are adjacent iff their correlation exceeds the threshold. */
  lemma CorrelationAdjacency(inst: Instance, threshold: real, i: nat, j: nat)
    requires Valid(inst) && inst.assetPairs == AssetPairs(|inst.assets|)
    requires i < j < |inst.assets|
    ensures Adj(CorrelationGraph(inst, threshold), i, j) <==> Exceeds(inst.correlation[i][j], threshold)
    ensures Adj(CorrelationGraph(inst, threshold), j, i) <==> Exceeds(inst.correlation[i][j], threshold)
  {
    assert Link(i, j) == Edge(i, j) == Link(j, i);
  }

  /** Raising the threshold only removes edges. */
  lemma ThresholdMonotone(inst: Instance, t1: real, t2: real)
    requires Valid(inst) && t1 <= t2
    ensures CorrelationGraph(inst, t2).edges <= CorrelationGraph(inst, t1).edges
  {
  }

  /** The vertices one hop away from some vertex of `r`. */
  function Frontier(g: Graph, r: set<nat>): set<nat>
  {
    set w | w in g.vertices && exists v :: v in r && Adj(g, v, w)
  }

  /** The vertices a breadth-first search from `u` with cutoff `k` reports. */
  function Ball(g: Graph, u: nat, k: nat): set<nat>
  {
    if k == 0 then {u} else Ball(g, u, k - 1) + Frontier(g, Ball(g, u, k - 1))
  }

  /** A sequence of vertices, each adjacent to the next. */
  ghost predicate IsWalk(g: Graph, w: seq<nat>)
  {
    |w| >= 1 && w[0] in g.vertices && forall i :: 0 <= i < |w| - 1 ==> Adj(g, w[i], w[i + 1])
  }

  /** `v` can be reached from `u` in at most `k` hops. */
  ghost predicate WithinHops(g: Graph, u: nat, v: nat, k: nat)
  {
    exists w :: IsWalk(g, w) && w[0] == u && w[|w| - 1] == v && |w| <= k + 1
  }

  lemma {:induction false} BallInVertices(g: Graph, u: nat, k: nat)
    requires u in g.vertices
    ensures Ball(g, u, k) <= g.vertices
  {
    if k > 0 {
      BallInVertices(g, u, k - 1);
    }
  }

  lemma {:induction false} BallContainsCentre(g: Graph, u: nat, k: nat)
    ensures u in Ball(g, u, k)
  {
    if k > 0 {
      BallContainsCentre(g, u, k - 1);
    }
  }

  /** A walk followed by one more hop is a walk. */
  lemma WalkExtend(g: Graph, w: seq<nat>, v: nat)
    requires IsWalk(g, w) && Adj(g, w[|w| - 1], v)
    ensures IsWalk(g, w + [v])
  {
    var w' := w + [v];
    forall i | 0 <= i < |w'| - 1
      ensures Adj(g, w'[i], w'[i + 1])
    {
      if i < |w| - 1 {
        assert w'[i] == w[i] && w'[i + 1] == w[i + 1];
      } else {
        assert w'[i] == w[|w| - 1] && w'[i + 1] == v;
      }
    }
  }

  /** A walk from `u` to `v` of at most `k` hops witnesses that `v` is within `k` hops. */
  lemma HopsBy(g: Graph, u: nat, v: nat, k: nat, w: seq<nat>)
    requires IsWalk(g, w) && w[0] == u && w[|w| - 1] == v && |w| <= k + 1
    ensures WithinHops(g, u, v, k)
  {
  }

  /** One more hop from a vertex within `k` hops reaches a vertex within `k + 1` hops. */
  lemma HopsStep(g: Graph, u: nat, m: nat, v: nat, k: nat)
    requires WithinHops(g, u, m, k) && Adj(g, m, v)
    ensures WithinHops(g, u, v, k + 1)
  {
    var w :| IsWalk(g, w) && w[0] == u && w[|w| - 1] == m && |w| <= k + 1;
    WalkExtend(g, w, v);
    var w' := w + [v];
    assert w'[0] == u && w'[|w'| - 1] == v;
    HopsBy(g, u, v, k + 1, w');
  }

  /** A vertex within `k` hops is within `k + 1` hops. */
  lemma HopsWeaken(g: Graph, u: nat, v: nat, k: nat)
    requires WithinHops(g, u, v, k)
    ensures WithinHops(g, u, v, k + 1)
  {
    var w :| IsWalk(g, w) && w[0] == u && w[|w| - 1] == v && |w| <= k + 1;
    HopsBy(g, u, v, k + 1, w);
  }

  /** A frontier vertex has a neighbour in the set it grew from. */
  lemma FrontierSource(g: Graph, r: set<nat>, v: nat) returns (m: nat)
    requires v in Frontier(g, r)
    ensures m in r && Adj(g, m, v)
  {
    m :| m in r && Adj(g, m, v);
  }

  /** Everything the search reports is within `k` hops. */
  lemma {:induction false} BallSound(g: Graph, u: nat, k: nat, v: nat)
    requires WellFormed(g) && u in g.vertices && v in Ball(g, u, k)
    ensures WithinHops(g, u, v, k)
  {
    if k == 0 {
      HopsBy(g, u, v, k, [u]);
    } else {
      var inner := Ball(g, u, k - 1);
      assert v in inner + Frontier(g, inner);
      if v in inner {
        BallSound(g, u, k - 1, v);
        HopsWeaken(g, u, v, k - 1);
      } else {
        var m := FrontierSource(g, inner, v);
        BallSound(g, u, k - 1, m);
        HopsStep(g, u, m, v, k - 1);
      }
    }
  }

  /** Everything within `k` hops is reported by the search. */
  lemma {:induction false} BallComplete(g: Graph, u: nat, k: nat, w: seq<nat>)
    requires WellFormed(g) && IsWalk(g, w) && w[0] == u && |w| <= k + 1
    ensures w[|w| - 1] in Ball(g, u, k)
    decreases k
  {
    if |w| == 1 {
      BallContainsCentre(g, u, k);
    } else {
      var w' := w[..|w| - 1];
      forall i | 0 <= i < |w'| - 1
        ensures Adj(g, w'[i], w'[i + 1])
      {
        assert w'[i] == w[i] && w'[i + 1] == w[i + 1];
      }
      assert IsWalk(g, w');
      BallComplete(g, u, k - 1, w');
      var m, v := w[|w| - 2], w[|w| - 1];
      assert Adj(g, m, v);
      AdjEndpoints(g, m, v);
      assert v in Frontier(g, Ball(g, u, k - 1));
    }
  }

  /** Reversing a walk gives a walk, so reachability within `k` hops is symmetric. */
  lemma WithinHopsSymmetric(g: Graph, u: nat, v: nat, k: nat)
    requires WellFormed(g) && WithinHops(g, u, v, k)
    ensures WithinHops(g, v, u, k) && u in g.vertices && v in g.vertices
  {
    var w :| IsWalk(g, w) && w[0] == u && w[|w| - 1] == v && |w| <= k + 1;
    var n := |w|;
    var r := seq(n, i requires 0 <= i < n => w[n - 1 - i]);
    forall i | 0 <= i < n - 1
      ensures Adj(g, r[i], r[i + 1])
    {
      assert Adj(g, w[n - 2 - i], w[n - 1 - i]);
      AdjEndpoints(g, w[n - 2 - i], w[n - 1 - i]);
    }
    if n > 1 {
      assert Adj(g, w[n - 2], w[n - 1]);
      AdjEndpoints(g, w[n - 2], w[n - 1]);
    }
    assert IsWalk(g, r) && r[0] == v && r[n - 1] == u;
  }

  function PowerEdges(g: Graph, k: nat): set<Edge>
  {
    set u, v | u in g.vertices && v in Ball(g, u, k) && u != v :: Link(u, v)
  }

  lemma PowerEdgesMeaning(g: Graph, k: nat)
    requires WellFormed(g)
    ensures forall e :: e in PowerEdges(g, k) ==> e.lo < e.hi && e.lo in g.vertices && e.hi in g.vertices
    ensures forall u, v :: u != v && Link(u, v) in PowerEdges(g, k) <==> u != v && u in g.vertices && WithinHops(g, u, v, k)
  {
    var E := PowerEdges(g, k);
    forall e | e in E
      ensures e.lo < e.hi && e.lo in g.vertices && e.hi in g.vertices
    {
      var u, v :| u in g.vertices && v in Ball(g, u, k) && u != v && Link(u, v) == e;
      BallInVertices(g, u, k);
    }
    forall u: nat, v: nat | u != v
      ensures Link(u, v) in E <==> u in g.vertices && WithinHops(g, u, v, k)
    {
      if Link(u, v) in E {
        var u', v' :| u' in g.vertices && v' in Ball(g, u', k) && u' != v' && Link(u', v') == Link(u, v);
        BallSound(g, u', k, v');
        if u' == u {
          assert v' == v;
        } else {
          assert u' == v && v' == u;
          WithinHopsSymmetric(g, v, u, k);
        }
      }
      if u in g.vertices && WithinHops(g, u, v, k) {
        var w :| IsWalk(g, w) && w[0] == u && w[|w| - 1] == v && |w| <= k + 1;
        BallComplete(g, u, k, w);
      }
    }
  }

  /**
   * The k-th power: same vertices, and an edge between two distinct vertices
   * iff one is within `k` hops of the other.
   */
  function Power(g: Graph, k: nat): (p: Graph)
    requires WellFormed(g)
    ensures WellFormed(p) && p.vertices == g.vertices
    ensures forall u, v :: Adj(p, u, v) <==> u != v && u in g.vertices && WithinHops(g, u, v, k)
  {
    PowerEdgesMeaning(g, k);
    Graph(g.vertices, PowerEdges(g, k))
  }

  /** For k at least one the power keeps every edge of the graph. */
  lemma PowerContainsGraph(g: Graph, k: nat, u: nat, v: nat)
    requires WellFormed(g) && k >= 1 && Adj(g, u, v)
    ensures Adj(Power(g, k), u, v)
  {
    AdjEndpoints(g, u, v);
    assert IsWalk(g, [u, v]);
  }

  /** Each power contains the previous one. */
  lemma PowerMonotone(g: Graph, k: nat, u: nat, v: nat)
    requires WellFormed(g) && Adj(Power(g, k), u, v)
    ensures Adj(Power(g, k + 1), u, v)
  {
    var w :| IsWalk(g, w) && w[0] == u && w[|w| - 1] == v && |w| <= k + 1;
    assert |w| <= k + 2;
  }

  /** In the square, two vertices are adjacent iff they are adjacent or share a neighbour. */
  lemma SquareAdjacency(g: Graph, u: nat, v: nat)
    requires WellFormed(g)
    ensures Adj(Power(g, 2), u, v) <==>
      u != v && (Adj(g, u, v) || exists m :: Adj(g, u, m) && Adj(g, m, v))
  {
    if Adj(Power(g, 2), u, v) {
      var w :| IsWalk(g, w) && w[0] == u && w[|w| - 1] == v && |w| <= 3;
      if |w| == 3 {
        assert Adj(g, u, w[1]) && Adj(g, w[1], v);
      } else {
        assert |w| == 2 && Adj(g, w[0], w[1]);
      }
    }
    if u != v && Adj(g, u, v) {
      PowerContainsGraph(g, 2, u, v);
    }
    if u != v && exists m :: Adj(g, u, m) && Adj(g, m, v) {
      var m :| Adj(g, u, m) && Adj(g, m, v);
      AdjEndpoints(g, u, m);
      assert IsWalk(g, [u, m, v]);
    }
  }

  /** Deletes every vertex whose mean return is negative, with its edges; zero is kept. */
  function RemoveNegative(g: Graph, mean: seq<real>): (h: Graph)
    requires forall v :: v in g.vertices ==> v < |mean|
    ensures forall v :: v in h.vertices <==> v in g.vertices && mean[v] >= 0.0
    ensures forall u, v :: Adj(h, u, v) <==> Adj(g, u, v) && u in h.vertices && v in h.vertices
    ensures WellFormed(g) ==> WellFormed(h)
  {
    var kept := set v | v in g.vertices && mean[v] >= 0.0;
    Graph(kept, set e | e in g.edges && e.lo in kept && e.hi in kept)
  }

  /** Filtering a filtered graph changes nothing. */
  lemma RemoveNegativeIdempotent(g: Graph, mean: seq<real>)
    requires forall v :: v in g.vertices ==> v < |mean|
    ensures RemoveNegative(RemoveNegative(g, mean), mean) == RemoveNegative(g, mean)
  {
  }

  /** The pair of graphs the model consumes: the filtered graph and its filtered square. */
  function CorrelationPowerGraph(inst: Instance, threshold: real): (gs: (Graph, Graph))
    requires Valid(inst)
    ensures WellFormed(gs.0) && WellFormed(gs.1)
    ensures forall v: nat :: v in gs.0.vertices <==> v < |inst.assets| && inst.meanReturn[v] >= 0.0
    ensures gs.1.vertices == gs.0.vertices
    ensures forall u, v :: Adj(gs.0, u, v) <==>
      Adj(CorrelationGraph(inst, threshold), u, v) && u in gs.0.vertices && v in gs.0.vertices
    ensures forall u, v :: Adj(gs.1, u, v) <==>
      u != v && u in gs.0.vertices && v in gs.0.vertices && WithinHops(CorrelationGraph(inst, threshold), u, v, 2)
    ensures forall u, v :: Adj(gs.0, u, v) ==> Adj(gs.1, u, v)
    ensures forall u, v :: Adj(Power(gs.0, 2), u, v) ==> Adj(gs.1, u, v)
  {
    var g := CorrelationGraph(inst, threshold);
    var g2 := Power(g, 2);
    var filtered := RemoveNegative(g, inst.meanReturn);
    var filtered2 := RemoveNegative(g2, inst.meanReturn);
    FilteredSquareFacts(g, inst.meanReturn);
    (filtered, filtered2)
  }

  lemma FilteredSquareFacts(g: Graph, mean: seq<real>)
    requires WellFormed(g) && forall v :: v in g.vertices ==> v < |mean|
    ensures forall u, v :: Adj(RemoveNegative(g, mean), u, v) ==> Adj(RemoveNegative(Power(g, 2), mean), u, v)
    ensures forall u, v :: Adj(Power(RemoveNegative(g, mean), 2), u, v) ==>
      Adj(RemoveNegative(Power(g, 2), mean), u, v)
  {
    var f := RemoveNegative(g, mean);
    var f2 := RemoveNegative(Power(g, 2), mean);
    forall u, v | Adj(f, u, v)
      ensures Adj(f2, u, v)
    {
      PowerContainsGraph(g, 2, u, v);
    }
    forall u, v | Adj(Power(f, 2), u, v)
      ensures Adj(f2, u, v)
    {
      SquareAdjacency(f, u, v);
      SquareAdjacency(g, u, v);
      if !Adj(f, u, v) {
        var m :| Adj(f, u, m) && Adj(f, m, v);
        assert Adj(g, u, m) && Adj(g, m, v);
      }
      AdjEndpoints(Power(f, 2), u, v);
    }
  }

  /**
   * Because the square is taken before filtering, the filtered square can keep
   * an edge whose only two-hop path ran through a removed vertex: on the path
   * 0 - 1 - 2 with vertex 1 negative, 0 and 2 stay adjacent.
   */
  lemma FilterAfterPowerKeepsDetour()
    ensures var g := Graph({0, 1, 2}, {Edge(0, 1), Edge(1, 2)});
            var mean := [0.0, -1.0, 0.0];
            Adj(RemoveNegative(Power(g, 2), mean), 0, 2) && !Adj(Power(RemoveNegative(g, mean), 2), 0, 2)
  {
    var g := Graph({0, 1, 2}, {Edge(0, 1), Edge(1, 2)});
    var mean := [0.0, -1.0, 0.0];
    var f := RemoveNegative(g, mean);
    assert Adj(g, 0, 1) && Adj(g, 1, 2);
    SquareAdjacency(g, 0, 2);
    assert 0 in f.vertices && 2 in f.vertices && 1 !in f.vertices;
    SquareAdjacency(f, 0, 2);
  }
}
