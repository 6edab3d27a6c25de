/**
 The simple form that `repeat_level` stands for: the level unrolled `n` times. Each node has
 one copy per iteration; the exit of an iteration is followed by the entry of the next, and
 a back-edge leads from a node to its next copy.
 */
module UnrolledLevels {
  import opened DependencyMaps

  datatype Unrolled = Unrolled(
    deps: Deps,
    entry: nat,
    exit: nat,
    backEdges: seq<(nat, Bound)>,
    iterations: nat)

  /** An edge from copy `i` of `a` to copy `j` of `b`. */
  datatype Step = Step(a: nat, i: nat, b: nat, j: nat, weight: real)

  ghost predicate IsStep(g: Unrolled, s: Step) {
    && s.j < g.iterations
    && (|| (s.i == s.j && s.b < |g.deps| && s.a in g.deps[s.b] && s.weight == g.deps[s.b][s.a].value)
        || (s.j == s.i + 1 && s.a == g.exit && s.b == g.entry && s.weight == 0.0)
        || (s.j == s.i + 1 && s.a == s.b && exists k ::
              0 <= k < |g.backEdges| && g.backEdges[k].0 == s.a && g.backEdges[k].1.value == s.weight))
  }

  ghost predicate IsWalk(g: Unrolled, w: seq<Step>, a: nat, i: nat, b: nat, j: nat) {
    if w == [] then a == b && i == j
    else IsStep(g, w[0]) && w[0].a == a && w[0].i == i && IsWalk(g, w[1..], w[0].b, w[0].j, b, j)
  }

  ghost function Weight(w: seq<Step>): real {
    if w == [] then 0.0 else w[0].weight + Weight(w[1..])
  }

  /** The unrolled level has a path at least as long as `weight`. */
  ghost predicate Matched(g: Unrolled, a: nat, i: nat, b: nat, j: nat, weight: real) {
    exists w :: IsWalk(g, w, a, i, b, j) && Weight(w) >= weight
  }

  lemma {:induction false} WalkConcat(g: Unrolled, w: seq<Step>, w': seq<Step>, a: nat, i: nat, b: nat, j: nat, c: nat, k: nat)
    requires IsWalk(g, w, a, i, b, j) && IsWalk(g, w', b, j, c, k)
    ensures IsWalk(g, w + w', a, i, c, k) && Weight(w + w') == Weight(w) + Weight(w')
  {
    if w == [] {
      assert w + w' == w';
    } else {
      WalkConcat(g, w[1..], w', w[0].b, w[0].j, b, j, c, k);
      assert (w + w')[1..] == w[1..] + w';
    }
  }

  lemma MatchedConcat(g: Unrolled, a: nat, i: nat, b: nat, j: nat, c: nat, k: nat, x: real, y: real)
    requires Matched(g, a, i, b, j, x) && Matched(g, b, j, c, k, y)
    ensures Matched(g, a, i, c, k, x + y)
  {
    var w :| IsWalk(g, w, a, i, b, j) && Weight(w) >= x;
    var w' :| IsWalk(g, w', b, j, c, k) && Weight(w') >= y;
    WalkConcat(g, w, w', a, i, b, j, c, k);
  }

  lemma MatchedStep(g: Unrolled, s: Step)
    requires IsStep(g, s)
    ensures Matched(g, s.a, s.i, s.b, s.j, s.weight)
  {
    var w := [s];
    assert w[1..] == [];
    assert IsWalk(g, w[1..], s.b, s.j, s.b, s.j) && Weight(w[1..]) == 0.0;
    assert Weight(w) == w[0].weight + Weight(w[1..]);
    assert IsWalk(g, w, s.a, s.i, s.b, s.j);
  }

  lemma MatchedStay(g: Unrolled, a: nat, i: nat)
    ensures Matched(g, a, i, a, i, 0.0)
  {
    assert IsWalk(g, [], a, i, a, i);
  }

  /** A dependency path is a walk inside any copy. */
  lemma {:induction false} MatchedPath(g: Unrolled, p: Path, k: nat)
    requires p.Valid(g.deps) && k < g.iterations
    ensures Matched(g, p.from, k, p.End(), k, p.Latency(g.deps).value)
  {
    MatchedStep(g, Step(p.from, k, p.Next(), k, g.deps[p.Next()][p.from].value));
    if p.Via? {
      MatchedPath(g, p.rest, k);
      MatchedConcat(g, p.from, k, p.Next(), k, p.End(), k,
                    g.deps[p.Next()][p.from].value, p.rest.Latency(g.deps).value);
    }
  }

  lemma MatchedNextIteration(g: Unrolled, k: nat)
    requires k + 1 < g.iterations
    ensures Matched(g, g.exit, k, g.entry, k + 1, 0.0)
  {
    MatchedStep(g, Step(g.exit, k, g.entry, k + 1, 0.0));
  }

  /** `m` full iterations: from the entry of copy `k` to the entry of copy `k + m`. */
  lemma {:induction false} MatchedCycles(g: Unrolled, cycle: real, k: nat, m: nat)
    requires k + m < g.iterations
    requires forall j: nat :: j < g.iterations ==> Matched(g, g.entry, j, g.exit, j, cycle)
    ensures Matched(g, g.entry, k, g.entry, k + m, Times(cycle, m))
  {
    if m == 0 {
      MatchedStay(g, g.entry, k);
    } else {
      MatchedCycles(g, cycle, k, m - 1);
      MatchedNextIteration(g, k + m - 1);
      MatchedConcat(g, g.entry, k, g.entry, k + m - 1, g.exit, k + m - 1, Times(cycle, m - 1), cycle);
      MatchedConcat(g, g.entry, k, g.exit, k + m - 1, g.entry, k + m, Times(cycle, m - 1) + cycle, 0.0);
      assert Times(cycle, m - 1) + cycle + 0.0 == Times(cycle, m);
    }
  }

  /** `m` back-edges in a row. */
  lemma {:induction false} MatchedBackEdges(g: Unrolled, e: nat, k: nat, m: nat)
    requires e < |g.backEdges| && k + m < g.iterations
    ensures Matched(g, g.backEdges[e].0, k, g.backEdges[e].0, k + m, Times(g.backEdges[e].1.value, m))
  {
    var (point, lat) := g.backEdges[e];
    if m == 0 {
      MatchedStay(g, point, k);
    } else {
      MatchedBackEdges(g, e, k, m - 1);
      MatchedStep(g, Step(point, k + m - 1, point, k + m, lat.value));
      MatchedConcat(g, point, k, point, k + m - 1, point, k + m, Times(lat.value, m - 1), lat.value);
      assert Times(lat.value, m - 1) + lat.value == Times(lat.value, m);
    }
  }

  // ----- The edges that replace the unrolled level -----

  /** What a code point's latency to another one is known to be. */
  ghost predicate IsLatency(deps: Deps, from: nat, to: nat, latency: Bound) {
    exists p :: IsPath(deps, p, from, to) && p.Latency(deps) == latency
  }

  lemma MatchedLatency(g: Unrolled, from: nat, to: nat, latency: Bound, k: nat)
    requires IsLatency(g.deps, from, to, latency) && k < g.iterations
    ensures Matched(g, from, k, to, k, latency.value)
  {
    var p :| IsPath(g.deps, p, from, to) && p.Latency(g.deps) == latency;
    MatchedPath(g, p, k);
  }

  /** All iterations, without the data dependencies of the first and last ones. */
  lemma AllIterationsMatched(g: Unrolled, pred: nat, cycle: Bound)
    requires g.iterations >= 2 && g.entry < |g.deps| && pred in g.deps[g.entry] && g.deps[g.entry][pred].value >= 0.0
    requires IsLatency(g.deps, g.entry, g.exit, cycle)
    ensures Matched(g, pred, 0, g.exit, g.iterations - 1,
                    ZERO.Chain(cycle.Iterate(g.iterations)).value)
  {
    var n := g.iterations;
    var first := g.deps[g.entry][pred].value;
    MatchedStep(g, Step(pred, 0, g.entry, 0, first));
    forall j: nat | j < n ensures Matched(g, g.entry, j, g.exit, j, cycle.value) {
      MatchedLatency(g, g.entry, g.exit, cycle, j);
    }
    MatchedCycles(g, cycle.value, 0, n - 1);
    MatchedConcat(g, pred, 0, g.entry, 0, g.entry, n - 1, first, Times(cycle.value, n - 1));
    MatchedConcat(g, pred, 0, g.entry, n - 1, g.exit, n - 1, first + Times(cycle.value, n - 1), cycle.value);
    assert Times(cycle.value, n - 1) + cycle.value == Times(cycle.value, n);
    Weaken(g, pred, 0, g.exit, n - 1, first + Times(cycle.value, n - 1) + cycle.value,
           ZERO.Chain(cycle.Iterate(n)).value);
  }

  lemma Weaken(g: Unrolled, a: nat, i: nat, b: nat, j: nat, x: real, y: real)
    requires Matched(g, a, i, b, j, x) && y <= x
    ensures Matched(g, a, i, b, j, y)
  {
    var w :| IsWalk(g, w, a, i, b, j) && Weight(w) >= x;
  }

  /** The first iteration with its data dependencies, then all but the last one. */
  lemma EntryOfLastMatched(g: Unrolled, pred: nat, init: Bound, cycle: Bound)
    requires g.iterations >= 2
    requires IsLatency(g.deps, pred, g.exit, init) && IsLatency(g.deps, g.entry, g.exit, cycle)
    ensures Matched(g, pred, 0, g.entry, g.iterations - 1, init.Chain(cycle.Iterate(g.iterations - 2)).value)
  {
    var n := g.iterations;
    MatchedLatency(g, pred, g.exit, init, 0);
    MatchedNextIteration(g, 0);
    MatchedConcat(g, pred, 0, g.exit, 0, g.entry, 1, init.value, 0.0);
    forall j: nat | j < n ensures Matched(g, g.entry, j, g.exit, j, cycle.value) {
      MatchedLatency(g, g.entry, g.exit, cycle, j);
    }
    MatchedCycles(g, cycle.value, 1, n - 2);
    MatchedConcat(g, pred, 0, g.entry, 1, g.entry, n - 1, init.value, Times(cycle.value, n - 2));
  }

  /** The latency to the second copy of a node with a back-edge. */
  function SecondCopy(toPoint: Bound, toExit: Bound, entryToPoint: Bound, lat: Bound): Bound {
    var viaBackEdge := toPoint.Chain(lat);
    var viaEntry := toExit.Chain(entryToPoint);
    if viaBackEdge.value > viaEntry.value then viaBackEdge else viaEntry
  }

  lemma SecondCopyMatched(g: Unrolled, e: nat, pred: nat, toPoint: Bound, toExit: Bound, entryToPoint: Bound)
    requires g.iterations >= 2 && e < |g.backEdges|
    requires IsLatency(g.deps, pred, g.backEdges[e].0, toPoint) && IsLatency(g.deps, pred, g.exit, toExit)
    requires IsLatency(g.deps, g.entry, g.backEdges[e].0, entryToPoint)
    ensures Matched(g, pred, 0, g.backEdges[e].0, 1,
                    SecondCopy(toPoint, toExit, entryToPoint, g.backEdges[e].1).value)
  {
    var (point, lat) := g.backEdges[e];
    MatchedLatency(g, pred, point, toPoint, 0);
    MatchedBackEdges(g, e, 0, 1);
    assert Times(lat.value, 1) == lat.value;
    MatchedConcat(g, pred, 0, point, 0, point, 1, toPoint.value, lat.value);
    MatchedLatency(g, pred, g.exit, toExit, 0);
    MatchedNextIteration(g, 0);
    MatchedConcat(g, pred, 0, g.exit, 0, g.entry, 1, toExit.value, 0.0);
    MatchedLatency(g, g.entry, point, entryToPoint, 1);
    MatchedConcat(g, pred, 0, g.entry, 1, point, 1, toExit.value, entryToPoint.value);
  }

  lemma PointOfLastMatched(g: Unrolled, e: nat, pred: nat, init: Bound)
    requires g.iterations >= 2 && e < |g.backEdges|
    requires Matched(g, pred, 0, g.backEdges[e].0, 1, init.value)
    ensures Matched(g, pred, 0, g.backEdges[e].0, g.iterations - 1,
                    init.Chain(g.backEdges[e].1.Iterate(g.iterations - 2)).value)
  {
    var (point, lat) := g.backEdges[e];
    MatchedBackEdges(g, e, 1, g.iterations - 2);
    MatchedConcat(g, pred, 0, point, 1, point, g.iterations - 1, init.value, Times(lat.value, g.iterations - 2));
  }

  lemma EntryAfterBackEdgesMatched(g: Unrolled, e: nat, pred: nat, init: Bound, exitLat: Bound)
    requires g.iterations >= 3 && e < |g.backEdges|
    requires Matched(g, pred, 0, g.backEdges[e].0, 1, init.value)
    requires IsLatency(g.deps, g.backEdges[e].0, g.exit, exitLat)
    ensures Matched(g, pred, 0, g.entry, g.iterations - 1,
                    init.Chain(g.backEdges[e].1.Iterate(g.iterations - 3)).Chain(exitLat).value)
  {
    var (point, lat) := g.backEdges[e];
    var n := g.iterations;
    MatchedBackEdges(g, e, 1, n - 3);
    MatchedConcat(g, pred, 0, point, 1, point, n - 2, init.value, Times(lat.value, n - 3));
    MatchedLatency(g, point, g.exit, exitLat, n - 2);
    var x := init.value + Times(lat.value, n - 3);
    MatchedConcat(g, pred, 0, point, n - 2, g.exit, n - 2, x, exitLat.value);
    MatchedNextIteration(g, n - 2);
    MatchedConcat(g, pred, 0, g.exit, n - 2, g.entry, n - 1, x + exitLat.value, 0.0);
  }
}
