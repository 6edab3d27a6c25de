/**
 `repeat_level` accounts for the iterations of a level by adding a few edges to the dependency
 maps of the levels that contain it. Each of them is matched in the unrolled level.
 */
module RepeatLevels {
  import opened Wrappers
  import opened DependencyMaps
  import opened UnrolledLevels

  /** What the code-point order guarantees about a level before it is repeated. */
  ghost predicate LevelOk(g: Unrolled, predecessors: seq<nat>) {
    && Sorted(g.deps)
    && g.iterations >= 2
    && g.entry < g.exit < |g.deps|
    && Reaches(g.deps, g.entry, g.exit)
    && (forall pred {:trigger Precedes(g, pred)} :: pred in predecessors ==> Precedes(g, pred))
    && (forall e {:trigger BackEdgeOk(g, e)} :: 0 <= e < |g.backEdges| ==> BackEdgeOk(g, e))
  }

  ghost predicate Precedes(g: Unrolled, pred: nat) {
    Reaches(g.deps, pred, g.entry)
  }

  ghost predicate BackEdgeOk(g: Unrolled, e: nat) {
    && e < |g.backEdges|
    && Reaches(g.deps, g.entry, g.backEdges[e].0)
    && Reaches(g.deps, g.backEdges[e].0, g.exit)
  }

  /** An edge that stands for a walk from the first to the last iteration. */
  ghost predicate Accelerated(g: Unrolled, from: nat, to: nat, latency: Bound) {
    g.iterations > 0 && from < g.entry <= to && Matched(g, from, 0, to, g.iterations - 1, latency.value)
  }

  /** `new` extends `old` with accelerated edges only. */
  ghost predicate Extends(g: Unrolled, old_: Deps, new_: Deps) {
    && |new_| == |old_|
    && (forall to, from :: 0 <= to < |old_| && from in old_[to] ==> from in new_[to])
    && (forall to, from :: 0 <= to < |old_| && from in new_[to] ==>
          || (from in old_[to] && new_[to][from] == old_[to][from])
          || Accelerated(g, from, to, new_[to][from]))
  }

  /** `x` is at most `y`: exactly so without tolerance, up to `n` factors of it where latencies are fair. */
  ghost predicate Under(x: real, y: real, tolerance: real, fair: bool, n: nat) {
    (tolerance == 1.0 ==> x <= y) && (fair ==> x <= Limit(tolerance, n, y))
  }

  /** The tolerance only loses a factor where it is at least one and no latency is negative. */
  ghost predicate Fair(g: Unrolled, deps: Deps, tolerance: real) {
    tolerance >= 1.0 && NonNegative(g.deps) && NonNegative(deps) && BackEdgesNonNegative(g)
  }

  lemma UnderAdd(x: real, y: real, u: real, v: real, tolerance: real, fair: bool, n: nat)
    requires Under(x, y, tolerance, fair, n) && Under(u, v, tolerance, fair, n)
    ensures Under(x + u, y + v, tolerance, fair, n)
  {
    Distribute(Power(tolerance, n), y, v);
  }

  lemma Distribute(p: real, x: real, y: real)
    ensures p * (x + y) == p * x + p * y
  {
  }

  lemma UnderSelf(x: real, tolerance: real, fair: bool, n: nat)
    requires fair ==> tolerance >= 1.0 && x >= 0.0
    ensures Under(x, x, tolerance, fair, n)
  {
    if fair {
      PowerAtLeastOne(tolerance, n);
      Scale(x, 1.0, Power(tolerance, n));
    }
  }

  lemma UnderTrans(x: real, y: real, z: real, tolerance: real, fair: bool, m: nat, n: nat)
    requires Under(x, y, tolerance, fair, m) && Under(y, z, tolerance, fair, n) && (fair ==> tolerance >= 1.0)
    ensures Under(x, z, tolerance, fair, m + n)
  {
    if fair {
      PowerAtLeastOne(tolerance, m);
      Scale(Power(tolerance, m), y, Limit(tolerance, n, z));
      Assoc(Power(tolerance, m), Power(tolerance, n), z);
      PowerAdd(tolerance, m, n);
    }
  }

  lemma {:induction false} UnderTimes(x: real, y: real, k: nat, tolerance: real, fair: bool, n: nat)
    requires Under(x, y, tolerance, fair, n)
    ensures Under(Times(x, k), Times(y, k), tolerance, fair, n)
  {
    if k > 0 {
      UnderTimes(x, y, k - 1, tolerance, fair, n);
      UnderAdd(Times(x, k - 1), Times(y, k - 1), x, y, tolerance, fair, n);
    }
  }

  lemma {:induction false} TimesNonNegative(x: real, n: nat)
    requires x >= 0.0
    ensures Times(x, n) >= 0.0
  {
    if n > 0 {
      TimesNonNegative(x, n - 1);
    }
  }

  /** The map has an edge at least as heavy as `latency`, up to `slack` factors of the tolerance. */
  ghost predicate Covers(deps: Deps, from: nat, to: nat, latency: real, tolerance: real, fair: bool, slack: nat) {
    && to < |deps| && from in deps[to]
    && Under(latency, deps[to][from].value, tolerance, fair, slack)
  }

  lemma ExtendsWithDep(g: Unrolled, old_: Deps, new_: Deps, from: nat, to: nat, latency: Bound, tolerance: real)
    requires Extends(g, old_, new_) && Accelerated(g, from, to, latency) && to < |new_|
    ensures Extends(g, old_, WithDep(new_, from, to, latency, tolerance))
  {
  }

  /** The edge offered is covered, up to one factor. */
  lemma CoversOffered(deps: Deps, from: nat, to: nat, latency: Bound, tolerance: real, fair: bool)
    requires to < |deps| && (fair ==> tolerance >= 1.0 && NonNegative(deps) && latency.value >= 0.0)
    ensures Covers(WithDep(deps, from, to, latency, tolerance), from, to, latency.value, tolerance, fair, 1)
    ensures fair ==> NonNegative(WithDep(deps, from, to, latency, tolerance))
  {
    DepKept(deps, from, to, latency, tolerance);
    if fair {
      OneFactor(tolerance, WithDep(deps, from, to, latency, tolerance)[to][from].value);
    }
  }

  lemma OneFactor(t: real, x: real)
    ensures Limit(t, 1, x) == t * x
  {
    assert Power(t, 1) == Power(t, 0) * t;
  }

  /** What was covered stays so, up to one more factor. */
  lemma CoversWithDep(deps: Deps, a: nat, b: nat, w: real, from: nat, to: nat, latency: Bound, tolerance: real, fair: bool, slack: nat)
    requires Covers(deps, a, b, w, tolerance, fair, slack) && to < |deps|
    requires fair ==> tolerance >= 1.0 && NonNegative(deps) && latency.value >= 0.0
    ensures Covers(WithDep(deps, from, to, latency, tolerance), a, b, w, tolerance, fair, slack + 1)
  {
    var after: Deps := WithDep(deps, from, to, latency, tolerance);
    DepKept(deps, from, to, latency, tolerance);
    var x: real, y: real := deps[b][a].value, after[b][a].value;
    assert Under(x, y, tolerance, fair, 1) by {
      if fair {
        OneFactor(tolerance, y);
        Scale(y, 1.0, tolerance);
      }
    }
    UnderTrans(w, x, y, tolerance, fair, slack, 1);
  }

  /** Dependency paths compose. */
  lemma {:induction false} ReachesTrans(deps: Deps, p: Path, to: nat)
    requires p.Valid(deps) && Reaches(deps, p.End(), to)
    ensures Reaches(deps, p.from, to)
  {
    match p
    case Direct(_, mid) =>
      var q :| IsPath(deps, q, mid, to);
      assert IsPath(deps, Via(p.from, q), p.from, to);
    case Via(_, rest) =>
      ReachesTrans(deps, rest, to);
      var q :| IsPath(deps, q, rest.from, to);
      assert IsPath(deps, Via(p.from, q), p.from, to);
  }

  lemma ReachesVia(deps: Deps, from: nat, mid: nat, to: nat)
    requires Reaches(deps, from, mid) && Reaches(deps, mid, to)
    ensures Reaches(deps, from, to)
  {
    var p :| IsPath(deps, p, from, mid);
    ReachesTrans(deps, p, to);
  }

  lemma ReachesIncreases(deps: Deps, from: nat, to: nat)
    requires Sorted(deps) && Reaches(deps, from, to)
    ensures from < to < |deps|
  {
    var p :| IsPath(deps, p, from, to);
    PathIncreases(deps, p);
  }

  /** `deps` knows every dependency of `other`, at least as late. */
  ghost predicate AtLeast(deps: Deps, other: Deps) {
    && |deps| == |other|
    && forall to, from :: 0 <= to < |other| && from in other[to] ==>
         from in deps[to] && deps[to][from].value >= other[to][from].value
  }

  lemma AtLeastTrans(x: Deps, y: Deps, z: Deps)
    requires AtLeast(x, y) && AtLeast(y, z)
    ensures AtLeast(x, z)
  {
  }

  /** Without tolerance, adding a dependency loses nothing. */
  lemma DepAtLeast(x: Deps, from: nat, to: nat, latency: Bound)
    requires to < |x|
    ensures AtLeast(WithDep(x, from, to, latency, 1.0), x)
  {
  }

  /** Adding the same dependency to two maps keeps the one at least as late as the other. */
  lemma BothAtLeast(x: Deps, y: Deps, from: nat, to: nat, latency: Bound)
    requires AtLeast(x, y) && to < |x|
    ensures AtLeast(WithDep(x, from, to, latency, 1.0), WithDep(y, from, to, latency, 1.0))
  {
  }

  /** One dependency map per set of levels that are already processed. */
  class LevelDag {
    const size: nat
    var nodes: seq<DependencyMap>

    constructor (size: nat, nodes: seq<DependencyMap>)
      ensures this.nodes == nodes && this.size == size
    {
      this.size := size;
      this.nodes := nodes;
    }

    ghost predicate Valid()
      reads this, nodes
    {
      && (forall i, j :: 0 <= i < j < |nodes| ==> nodes[i] != nodes[j])
      && (forall i :: 0 <= i < |nodes| ==> |nodes[i].deps| == size && Sorted(nodes[i].deps))
    }

    /** Adds a dependency to the given maps and to no other. */
    method AddDependency(to: seq<nat>, start: nat, end: nat, latency: Bound, tolerance: real)
      requires Valid() && start < end < size && (forall k :: 0 <= k < |to| ==> to[k] < |nodes|)
      requires forall i, j :: 0 <= i < j < |to| ==> to[i] != to[j]
      modifies nodes
      ensures Valid()
      ensures forall k :: 0 <= k < |to| ==>
                nodes[to[k]].deps == WithDep(old(nodes[to[k]].deps), start, end, latency, tolerance)
      ensures forall i :: 0 <= i < |nodes| && i !in to ==> nodes[i].deps == old(nodes[i].deps)
    {
      for k := 0 to |to|
        invariant Valid()
        invariant forall j :: 0 <= j < k ==>
                    nodes[to[j]].deps == WithDep(old(nodes[to[j]].deps), start, end, latency, tolerance)
        invariant forall j :: k <= j < |to| ==> nodes[to[j]].deps == old(nodes[to[j]].deps)
        invariant forall i :: 0 <= i < |nodes| && i !in to ==> nodes[i].deps == old(nodes[i].deps)
      {
        nodes[to[k]].AddDep(start, end, latency, tolerance);
      }
    }
  }

  /** An edge that the repetition had to add. */
  datatype Added = Added(from: nat, to: nat, weight: real)

  /** The edges that were added, and how often a map was offered one. */
  datatype Gains = Gains(edges: set<Added>, count: nat) {
    function Gain(from: nat, to: nat, weight: real): Gains {
      Gains(edges + {Added(from, to, weight)}, count + 1)
    }
  }

  /** The state of the maps while edges are being added to those in `to`. */
  ghost predicate Repeating(
      dag: LevelDag, from: nat, to: seq<nat>, g: Unrolled, before: seq<Deps>, gains: Gains, tolerance: real)
    reads dag, dag.nodes
  {
    && dag.Valid() && |before| == |dag.nodes| && dag.size == |g.deps|
    && from < |dag.nodes| && from !in to
    && (forall k :: 0 <= k < |to| ==> to[k] < |dag.nodes|)
    && (forall i, j :: 0 <= i < j < |to| ==> to[i] != to[j])
    && before[from] == g.deps
    && (forall i :: 0 <= i < |dag.nodes| && i !in to ==> dag.nodes[i].deps == before[i])
    && (forall k :: 0 <= k < |to| ==> Extends(g, before[to[k]], dag.nodes[to[k]].deps))
    && (tolerance == 1.0 ==> forall k :: 0 <= k < |to| ==> AtLeast(dag.nodes[to[k]].deps, before[to[k]]))
    && (tolerance == 1.0 ==> forall j, k :: 0 <= j < |to| && 0 <= k < |to| && AtLeast(before[to[k]], before[to[j]]) ==>
          AtLeast(dag.nodes[to[k]].deps, dag.nodes[to[j]].deps))
    && (forall k :: 0 <= k < |to| ==> Gained(g, before[to[k]], dag.nodes[to[k]].deps, gains, tolerance))
  }

  /** The map covers what it gained, up to one factor per edge offered. */
  ghost predicate Gained(g: Unrolled, before: Deps, deps: Deps, gains: Gains, tolerance: real) {
    && (Fair(g, before, tolerance) ==> NonNegative(deps))
    && AllCovered(deps, gains, tolerance, Fair(g, before, tolerance))
  }

  ghost predicate AllCovered(deps: Deps, gains: Gains, tolerance: real, fair: bool) {
    forall e :: e in gains.edges ==> Covers(deps, e.from, e.to, e.weight, tolerance, fair, gains.count)
  }

  lemma GainOne(g: Unrolled, before: Deps, deps: Deps, gains: Gains, from: nat, to: nat, latency: Bound, tolerance: real)
    requires Gained(g, before, deps, gains, tolerance) && to < |deps|
    requires Fair(g, before, tolerance) ==> latency.value >= 0.0
    ensures Gained(g, before, WithDep(deps, from, to, latency, tolerance), gains.Gain(from, to, latency.value), tolerance)
  {
    var fair, after := Fair(g, before, tolerance), WithDep(deps, from, to, latency, tolerance);
    CoversOffered(deps, from, to, latency, tolerance, fair);
    forall e | e in gains.edges ensures Covers(after, e.from, e.to, e.weight, tolerance, fair, gains.count + 1) {
      CoversWithDep(deps, e.from, e.to, e.weight, from, to, latency, tolerance, fair, gains.count);
    }
    MoreSlack(after, from, to, latency.value, tolerance, fair, 1, gains.count + 1);
  }

  lemma MoreSlack(deps: Deps, from: nat, to: nat, w: real, tolerance: real, fair: bool, m: nat, n: nat)
    requires Covers(deps, from, to, w, tolerance, fair, m) && m <= n && (fair ==> tolerance >= 1.0 && NonNegative(deps))
    ensures Covers(deps, from, to, w, tolerance, fair, n)
  {
    if fair {
      PowerMonotone(tolerance, m, n, deps[to][from].value);
    }
  }

  method AddAccelerated(
      dag: LevelDag, ghost from: nat, to: seq<nat>, ghost g: Unrolled, ghost before: seq<Deps>, ghost gains: Gains,
      a: nat, b: nat, latency: Bound, tolerance: real)
    requires Repeating(dag, from, to, g, before, gains, tolerance)
    requires a < b < dag.size && Accelerated(g, a, b, latency)
    requires tolerance >= 1.0 && BackEdgesNonNegative(g) ==> latency.value >= 0.0
    modifies dag.nodes
    ensures Repeating(dag, from, to, g, before, gains.Gain(a, b, latency.value), tolerance)
  {
    ghost var mid := seq(|dag.nodes|, i requires 0 <= i < |dag.nodes| reads dag.nodes, dag => dag.nodes[i].deps);
    dag.AddDependency(to, a, b, latency, tolerance);
    forall k | 0 <= k < |to|
      ensures Extends(g, before[to[k]], dag.nodes[to[k]].deps)
      ensures Gained(g, before[to[k]], dag.nodes[to[k]].deps, gains.Gain(a, b, latency.value), tolerance)
    {
      ExtendsWithDep(g, before[to[k]], mid[to[k]], a, b, latency, tolerance);
      GainOne(g, before[to[k]], mid[to[k]], gains, a, b, latency, tolerance);
    }
    if tolerance == 1.0 {
      OrderKept(to, before, mid, seq(|dag.nodes|, i requires 0 <= i < |dag.nodes| reads dag.nodes, dag => dag.nodes[i].deps), a, b, latency);
    }
  }

  ghost predicate BackEdgesNonNegative(g: Unrolled) {
    forall e :: 0 <= e < |g.backEdges| ==> g.backEdges[e].1.value >= 0.0
  }

  /** The order of the maps is kept when all of them gain the same dependency. */
  lemma OrderKept(to: seq<nat>, before: seq<Deps>, mid: seq<Deps>, after: seq<Deps>, a: nat, b: nat, latency: Bound)
    requires |before| == |mid| == |after| && forall k :: 0 <= k < |to| ==> to[k] < |before| && b < |mid[to[k]]|
    requires forall k :: 0 <= k < |to| ==> after[to[k]] == WithDep(mid[to[k]], a, b, latency, 1.0)
    requires forall k :: 0 <= k < |to| ==> AtLeast(mid[to[k]], before[to[k]])
    requires forall j, k :: 0 <= j < |to| && 0 <= k < |to| && AtLeast(before[to[k]], before[to[j]]) ==> AtLeast(mid[to[k]], mid[to[j]])
    ensures forall k :: 0 <= k < |to| ==> AtLeast(after[to[k]], before[to[k]])
    ensures forall j, k :: 0 <= j < |to| && 0 <= k < |to| && AtLeast(before[to[k]], before[to[j]]) ==> AtLeast(after[to[k]], after[to[j]])
  {
    forall k | 0 <= k < |to| ensures AtLeast(after[to[k]], before[to[k]]) {
      DepAtLeast(mid[to[k]], a, b, latency);
      AtLeastTrans(after[to[k]], mid[to[k]], before[to[k]]);
    }
    forall j, k | 0 <= j < |to| && 0 <= k < |to| && AtLeast(before[to[k]], before[to[j]])
      ensures AtLeast(after[to[k]], after[to[j]])
    {
      BothAtLeast(mid[to[k]], mid[to[j]], a, b, latency);
    }
  }

  /** A latency from `pred` in the first copy to the second copy of the back-edge's node. */
  ghost predicate IsSecondCopy(g: Unrolled, e: nat, pred: nat, x: real)
    requires e < |g.backEdges|
  {
    var (point, lat) := g.backEdges[e];
    || (exists l :: IsLatency(g.deps, pred, point, l) && x == l.value + lat.value)
    || (exists l, m :: IsLatency(g.deps, pred, g.exit, l) && IsLatency(g.deps, g.entry, point, m) && x == l.value + m.value)
  }

  // Every edge the repetition promises is there, as heavy as any path it accounts for: from an
  // immediate predecessor to the exit, from any predecessor to the last entry and to the last
  // copy of a node with a back-edge, and from it to the last entry after back-edges.

  /** The first iteration with its dependencies, then all but the last of the others. */
  function EntryWeight(g: Unrolled, l: real, c: real): real
    requires g.iterations >= 2
  {
    l + Times(c, g.iterations - 2)
  }

  /** What leads to the second copy of a node, then its back-edge up to the last copy. */
  function PointWeight(g: Unrolled, e: nat, x: real): real
    requires g.iterations >= 2 && e < |g.backEdges|
  {
    x + Times(g.backEdges[e].1.value, g.iterations - 2)
  }

  /** The same up to the last copy but one, then the exit. */
  function AfterWeight(g: Unrolled, e: nat, x: real, o: real): real
    requires g.iterations >= 3 && e < |g.backEdges|
  {
    x + Times(g.backEdges[e].1.value, g.iterations - 3) + o
  }

  ghost predicate CompleteExit(g: Unrolled, deps: Deps, tolerance: real, fair: bool, slack: nat)
    requires g.entry < |g.deps|
  {
    forall pred, c :: pred in g.deps[g.entry] && IsLatency(g.deps, g.entry, g.exit, c) ==>
      Covers(deps, pred, g.exit, Times(c.value, g.iterations), tolerance, fair, slack)
  }

  ghost predicate CompleteEntry(g: Unrolled, predecessors: seq<nat>, deps: Deps, tolerance: real, fair: bool, slack: nat)
    requires g.iterations >= 2
  {
    forall pred, l, c :: pred in predecessors && IsLatency(g.deps, pred, g.exit, l) && IsLatency(g.deps, g.entry, g.exit, c) ==>
      Covers(deps, pred, g.entry, EntryWeight(g, l.value, c.value), tolerance, fair, slack)
  }

  ghost predicate CompletePoint(g: Unrolled, predecessors: seq<nat>, deps: Deps, tolerance: real, fair: bool, slack: nat)
    requires g.iterations >= 2
  {
    forall pred, e, x :: pred in predecessors && 0 <= e < |g.backEdges| && IsSecondCopy(g, e, pred, x) ==>
      Covers(deps, pred, g.backEdges[e].0, PointWeight(g, e, x), tolerance, fair, slack)
  }

  ghost predicate CompleteAfter(g: Unrolled, predecessors: seq<nat>, deps: Deps, tolerance: real, fair: bool, slack: nat) {
    g.iterations >= 3 ==> forall pred, e, x, o ::
      pred in predecessors && 0 <= e < |g.backEdges| && IsSecondCopy(g, e, pred, x) && IsLatency(g.deps, g.backEdges[e].0, g.exit, o) ==>
        Covers(deps, pred, g.entry, AfterWeight(g, e, x, o.value), tolerance, fair, slack)
  }

  ghost predicate Complete(g: Unrolled, predecessors: seq<nat>, deps: Deps, tolerance: real, fair: bool, slack: nat)
    requires g.iterations >= 2 && g.entry < |g.deps|
  {
    && CompleteExit(g, deps, tolerance, fair, slack)
    && CompleteEntry(g, predecessors, deps, tolerance, fair, slack)
    && CompletePoint(g, predecessors, deps, tolerance, fair, slack)
    && CompleteAfter(g, predecessors, deps, tolerance, fair, slack)
  }

  /** The latency computed is the largest one, up to one factor of the tolerance per node. */
  ghost predicate Longest(deps: Deps, from: nat, to: nat, latency: Bound, tolerance: real) {
    IsLatency(deps, from, to, latency) && NoLonger(deps, from, to, latency, tolerance, tolerance >= 1.0 && NonNegative(deps))
  }

  /** No dependency path is longer than `latency`. */
  ghost predicate NoLonger(deps: Deps, from: nat, to: nat, latency: Bound, tolerance: real, fair: bool) {
    forall l :: IsLatency(deps, from, to, l) ==> Under(l.value, latency.value, tolerance, fair, |deps|)
  }

  /** What `latency_to` returns, for the nodes that reach the destination. */
  ghost predicate LatenciesTo(deps: Deps, to: nat, latencies: seq<Option<Bound>>, tolerance: real) {
    && |latencies| == to
    && forall from :: 0 <= from < to && Reaches(deps, from, to) ==>
         latencies[from].Some? && Longest(deps, from, to, latencies[from].value, tolerance)
  }

  method ComputeLatencies(m: DependencyMap, to: nat, tolerance: real) returns (latencies: seq<Option<Bound>>)
    requires Sorted(m.deps) && to < |m.deps|
    ensures LatenciesTo(m.deps, to, latencies, tolerance)
  {
    latencies := m.LatencyTo(to, tolerance);
    forall from | 0 <= from < to && Reaches(m.deps, from, to)
      ensures latencies[from].Some? && Longest(m.deps, from, to, latencies[from].value, tolerance)
    {
      if tolerance >= 1.0 && NonNegative(m.deps) {
        var q :| IsPath(m.deps, q, from, to) && q.Latency(m.deps) == latencies[from].value;
        PathNonNegative(m.deps, q);
        PowerMonotone(tolerance, to - 1 - from, |m.deps|, latencies[from].value.value);
      }
    }
  }

  // ----- Which edges are added -----

  function Get(latencies: seq<Option<Bound>>, i: nat): Bound {
    if i < |latencies| && latencies[i].Some? then latencies[i].value else ZERO
  }

  ghost predicate AllIterationsAdded(g: Unrolled, pred: nat, cycle: Bound, added: set<Added>) {
    Added(pred, g.exit, ZERO.Chain(cycle.Iterate(g.iterations)).value) in added
  }

  ghost predicate EntryOfLastAdded(g: Unrolled, pred: nat, toExit: seq<Option<Bound>>, added: set<Added>)
    requires g.iterations >= 2
  {
    Added(pred, g.entry, Get(toExit, pred).Chain(Get(toExit, g.entry).Iterate(g.iterations - 2)).value) in added
  }

  function SecondCopyOf(g: Unrolled, e: nat, pred: nat, toExit: seq<Option<Bound>>, toPoint: seq<Option<Bound>>): Bound
    requires e < |g.backEdges|
  {
    SecondCopy(Get(toPoint, pred), Get(toExit, pred), Get(toPoint, g.entry), g.backEdges[e].1)
  }

  ghost predicate BackEdgeAdded(
      g: Unrolled, e: nat, pred: nat, toExit: seq<Option<Bound>>, toPoint: seq<Option<Bound>>, added: set<Added>)
    requires g.iterations >= 2 && e < |g.backEdges|
  {
    var (point, lat) := g.backEdges[e];
    var init := SecondCopyOf(g, e, pred, toExit, toPoint);
    && Added(pred, point, init.Chain(lat.Iterate(g.iterations - 2)).value) in added
    && (g.iterations >= 3 ==>
          Added(pred, g.entry, init.Chain(lat.Iterate(g.iterations - 3)).Chain(Get(toExit, point)).value) in added)
  }

  /** A gained edge covers what is at most its weight, up to the factors of both. */
  lemma CoversLess(deps: Deps, gains: Gains, a: Added, w: real, tolerance: real, fair: bool, n: nat)
    requires AllCovered(deps, gains, tolerance, fair) && a in gains.edges && (fair ==> tolerance >= 1.0)
    requires Under(w, a.weight, tolerance, fair, n)
    ensures Covers(deps, a.from, a.to, w, tolerance, fair, n + gains.count)
  {
    UnderTrans(w, a.weight, deps[a.to][a.from].value, tolerance, fair, n, gains.count);
  }

  lemma CompleteEntryOfLast(
      g: Unrolled, deps: Deps, pred: nat, l: Bound, c: Bound, toExit: seq<Option<Bound>>, gains: Gains, tolerance: real, fair: bool, slack: nat)
    requires g.iterations >= 2 && EntryOfLastAdded(g, pred, toExit, gains.edges) && AllCovered(deps, gains, tolerance, fair)
    requires fair ==> tolerance >= 1.0
    requires Under(l.value, Get(toExit, pred).value, tolerance, fair, |g.deps|)
    requires Under(c.value, Get(toExit, g.entry).value, tolerance, fair, |g.deps|)
    requires slack == |g.deps| + gains.count
    ensures Covers(deps, pred, g.entry, EntryWeight(g, l.value, c.value), tolerance, fair, slack)
  {
    var cycle, n := Get(toExit, g.entry), g.iterations - 2;
    UnderTimes(c.value, cycle.value, n, tolerance, fair, |g.deps|);
    UnderAdd(l.value, Get(toExit, pred).value, Times(c.value, n), Times(cycle.value, n), tolerance, fair, |g.deps|);
    CoversLess(deps, gains, Added(pred, g.entry, Get(toExit, pred).Chain(cycle.Iterate(n)).value),
               EntryWeight(g, l.value, c.value), tolerance, fair, |g.deps|);
  }

  /** The repeated latency of a back-edge, after what leads to it. */
  lemma UnderBackEdge(g: Unrolled, e: nat, x: real, y: real, n: nat, tolerance: real, fair: bool)
    requires e < |g.backEdges| && (fair ==> tolerance >= 1.0 && BackEdgesNonNegative(g))
    requires Under(x, y, tolerance, fair, |g.deps|)
    ensures
      var lat := Times(g.backEdges[e].1.value, n);
      Under(x + lat, y + lat, tolerance, fair, |g.deps|)
  {
    var lat := Times(g.backEdges[e].1.value, n);
    if fair { TimesNonNegative(g.backEdges[e].1.value, n); }
    UnderSelf(lat, tolerance, fair, |g.deps|);
    UnderAdd(x, y, lat, lat, tolerance, fair, |g.deps|);
  }

  lemma CompleteBackEdge(
      g: Unrolled, deps: Deps, e: nat, pred: nat, x: real,
      toExit: seq<Option<Bound>>, toPoint: seq<Option<Bound>>, gains: Gains, tolerance: real, fair: bool, slack: nat)
    requires g.iterations >= 2 && e < |g.backEdges| && AllCovered(deps, gains, tolerance, fair)
    requires BackEdgeAdded(g, e, pred, toExit, toPoint, gains.edges) && (fair ==> tolerance >= 1.0 && BackEdgesNonNegative(g))
    requires Under(x, SecondCopyOf(g, e, pred, toExit, toPoint).value, tolerance, fair, |g.deps|)
    requires slack == |g.deps| + gains.count
    ensures Covers(deps, pred, g.backEdges[e].0, PointWeight(g, e, x), tolerance, fair, slack)
  {
    var (point, lat) := g.backEdges[e];
    var init := SecondCopyOf(g, e, pred, toExit, toPoint);
    UnderBackEdge(g, e, x, init.value, g.iterations - 2, tolerance, fair);
    CoversLess(deps, gains, Added(pred, point, init.Chain(lat.Iterate(g.iterations - 2)).value),
               PointWeight(g, e, x), tolerance, fair, |g.deps|);
  }

  lemma CompleteAfterBackEdges(
      g: Unrolled, deps: Deps, e: nat, pred: nat, x: real, o: Bound,
      toExit: seq<Option<Bound>>, toPoint: seq<Option<Bound>>, gains: Gains, tolerance: real, fair: bool, slack: nat)
    requires g.iterations >= 3 && e < |g.backEdges| && AllCovered(deps, gains, tolerance, fair)
    requires BackEdgeAdded(g, e, pred, toExit, toPoint, gains.edges) && (fair ==> tolerance >= 1.0 && BackEdgesNonNegative(g))
    requires Under(x, SecondCopyOf(g, e, pred, toExit, toPoint).value, tolerance, fair, |g.deps|)
    requires Under(o.value, Get(toExit, g.backEdges[e].0).value, tolerance, fair, |g.deps|)
    requires slack == |g.deps| + gains.count
    ensures Covers(deps, pred, g.entry, AfterWeight(g, e, x, o.value), tolerance, fair, slack)
  {
    var (point, lat) := g.backEdges[e];
    var init, n := SecondCopyOf(g, e, pred, toExit, toPoint), g.iterations - 3;
    UnderBackEdge(g, e, x, init.value, n, tolerance, fair);
    UnderAdd(x + Times(lat.value, n), init.value + Times(lat.value, n), o.value, Get(toExit, point).value, tolerance, fair, |g.deps|);
    CoversLess(deps, gains, Added(pred, g.entry, init.Chain(lat.Iterate(n)).Chain(Get(toExit, point)).value),
               AfterWeight(g, e, x, o.value), tolerance, fair, |g.deps|);
  }

  lemma LatencyBound(deps: Deps, from: nat, via: nat, to: nat, latencies: seq<Option<Bound>>, tolerance: real, fair: bool)
    requires Sorted(deps) && Reaches(deps, from, via) && Reaches(deps, via, to) && LatenciesTo(deps, to, latencies, tolerance)
    requires fair ==> tolerance >= 1.0 && NonNegative(deps)
    ensures NoLonger(deps, from, to, Get(latencies, from), tolerance, fair)
  {
    ReachesVia(deps, from, via, to);
    ReachesIncreases(deps, from, to);
  }

  /** No latency to the second copy exceeds the one that is used. */
  ghost predicate NoLongerSecondCopy(
      g: Unrolled, e: nat, pred: nat, toExit: seq<Option<Bound>>, toPoint: seq<Option<Bound>>, tolerance: real, fair: bool)
    requires e < |g.backEdges|
  {
    forall x :: IsSecondCopy(g, e, pred, x) ==>
      Under(x, SecondCopyOf(g, e, pred, toExit, toPoint).value, tolerance, fair, |g.deps|)
  }

  lemma SecondCopyIsLongest(
      g: Unrolled, e: nat, pred: nat, toExit: seq<Option<Bound>>, toPoint: seq<Option<Bound>>, tolerance: real, fair: bool)
    requires e < |g.backEdges| && (fair ==> tolerance >= 1.0 && BackEdgesNonNegative(g))
    requires NoLonger(g.deps, pred, g.exit, Get(toExit, pred), tolerance, fair)
    requires NoLonger(g.deps, pred, g.backEdges[e].0, Get(toPoint, pred), tolerance, fair)
    requires NoLonger(g.deps, g.entry, g.backEdges[e].0, Get(toPoint, g.entry), tolerance, fair)
    ensures NoLongerSecondCopy(g, e, pred, toExit, toPoint, tolerance, fair)
  {
    var (point, lat) := g.backEdges[e];
    var init, n := SecondCopyOf(g, e, pred, toExit, toPoint).value, |g.deps|;
    if fair { assert lat.value >= 0.0; }
    forall x | IsSecondCopy(g, e, pred, x) ensures Under(x, init, tolerance, fair, n) {
      if l :| IsLatency(g.deps, pred, point, l) && x == l.value + lat.value {
        UnderSelf(lat.value, tolerance, fair, n);
        UnderSum(l.value, Get(toPoint, pred).value, lat.value, lat.value, init, tolerance, fair, n);
      } else {
        var l, m :| IsLatency(g.deps, pred, g.exit, l) && IsLatency(g.deps, g.entry, point, m) && x == l.value + m.value;
        UnderSum(l.value, Get(toExit, pred).value, m.value, Get(toPoint, g.entry).value, init, tolerance, fair, n);
      }
    }
  }

  lemma UnderSum(x: real, y: real, u: real, v: real, z: real, tolerance: real, fair: bool, n: nat)
    requires Under(x, y, tolerance, fair, n) && Under(u, v, tolerance, fair, n) && y + v <= z && (fair ==> tolerance >= 1.0)
    ensures Under(x + u, z, tolerance, fair, n)
  {
    UnderAdd(x, y, u, v, tolerance, fair, n);
    UnderMore(x + u, y + v, z, tolerance, fair, n);
  }

  lemma UnderMore(x: real, y: real, z: real, tolerance: real, fair: bool, n: nat)
    requires Under(x, y, tolerance, fair, n) && y <= z && (fair ==> tolerance >= 1.0)
    ensures Under(x, z, tolerance, fair, n)
  {
    if fair {
      PowerAtLeastOne(tolerance, n);
      Scale(Power(tolerance, n), y, z);
    }
  }

  /** The latencies used are the longest ones. */
  ghost predicate LongestUsed(
      g: Unrolled, predecessors: seq<nat>, toExit: seq<Option<Bound>>, toPoints: seq<seq<Option<Bound>>>, tolerance: real, fair: bool)
  {
    && |toPoints| == |g.backEdges|
    && NoLonger(g.deps, g.entry, g.exit, Get(toExit, g.entry), tolerance, fair)
    && (forall pred :: pred in predecessors ==> NoLonger(g.deps, pred, g.exit, Get(toExit, pred), tolerance, fair))
    && (forall e :: 0 <= e < |g.backEdges| ==>
          NoLonger(g.deps, g.backEdges[e].0, g.exit, Get(toExit, g.backEdges[e].0), tolerance, fair))
    && (forall pred, e :: pred in predecessors && 0 <= e < |g.backEdges| ==>
          NoLongerSecondCopy(g, e, pred, toExit, toPoints[e], tolerance, fair))
  }

  ghost predicate PointLatencies(g: Unrolled, toPoints: seq<seq<Option<Bound>>>, tolerance: real) {
    && |toPoints| <= |g.backEdges|
    && forall e :: 0 <= e < |toPoints| ==> LatenciesTo(g.deps, g.backEdges[e].0, toPoints[e], tolerance)
  }

  /** The latencies known when the edges of the back-edges are added. */
  ghost predicate AllLatencies(g: Unrolled, toExit: seq<Option<Bound>>, toPoints: seq<seq<Option<Bound>>>, tolerance: real) {
    && LatenciesTo(g.deps, g.exit, toExit, tolerance)
    && |toPoints| == |g.backEdges|
    && PointLatencies(g, toPoints, tolerance)
  }

  lemma LongestAreUsed(
      g: Unrolled, predecessors: seq<nat>, toExit: seq<Option<Bound>>, toPoints: seq<seq<Option<Bound>>>, tolerance: real, fair: bool)
    requires LevelOk(g, predecessors) && AllLatencies(g, toExit, toPoints, tolerance)
    requires fair ==> tolerance >= 1.0 && NonNegative(g.deps) && BackEdgesNonNegative(g)
    ensures LongestUsed(g, predecessors, toExit, toPoints, tolerance, fair)
  {
    DirectBound(g.deps, g.entry, g.exit, toExit, tolerance, fair);
    forall pred | pred in predecessors ensures NoLonger(g.deps, pred, g.exit, Get(toExit, pred), tolerance, fair) {
      assert Precedes(g, pred);
      LatencyBound(g.deps, pred, g.entry, g.exit, toExit, tolerance, fair);
    }
    forall e | 0 <= e < |g.backEdges|
      ensures NoLonger(g.deps, g.backEdges[e].0, g.exit, Get(toExit, g.backEdges[e].0), tolerance, fair)
    {
      assert BackEdgeOk(g, e);
      DirectBound(g.deps, g.backEdges[e].0, g.exit, toExit, tolerance, fair);
    }
    forall pred, e | pred in predecessors && 0 <= e < |g.backEdges|
      ensures NoLongerSecondCopy(g, e, pred, toExit, toPoints[e], tolerance, fair)
    {
      assert Precedes(g, pred) && BackEdgeOk(g, e);
      LatencyBound(g.deps, pred, g.entry, g.backEdges[e].0, toPoints[e], tolerance, fair);
      DirectBound(g.deps, g.entry, g.backEdges[e].0, toPoints[e], tolerance, fair);
      SecondCopyIsLongest(g, e, pred, toExit, toPoints[e], tolerance, fair);
    }
  }

  lemma DirectBound(deps: Deps, from: nat, to: nat, latencies: seq<Option<Bound>>, tolerance: real, fair: bool)
    requires Sorted(deps) && Reaches(deps, from, to) && LatenciesTo(deps, to, latencies, tolerance)
    requires fair ==> tolerance >= 1.0 && NonNegative(deps)
    ensures NoLonger(deps, from, to, Get(latencies, from), tolerance, fair)
  {
    ReachesIncreases(deps, from, to);
  }

  lemma CompleteExitFromAdded(g: Unrolled, deps: Deps, toExit: seq<Option<Bound>>, gains: Gains, tolerance: real, fair: bool, slack: nat)
    requires g.entry < |g.deps| && AllCovered(deps, gains, tolerance, fair) && (fair ==> tolerance >= 1.0)
    requires NoLonger(g.deps, g.entry, g.exit, Get(toExit, g.entry), tolerance, fair)
    requires forall pred :: pred in g.deps[g.entry] ==> AllIterationsAdded(g, pred, Get(toExit, g.entry), gains.edges)
    requires slack == |g.deps| + gains.count
    ensures CompleteExit(g, deps, tolerance, fair, slack)
  {
    var cycle := Get(toExit, g.entry);
    forall pred, c | pred in g.deps[g.entry] && IsLatency(g.deps, g.entry, g.exit, c)
      ensures Covers(deps, pred, g.exit, Times(c.value, g.iterations), tolerance, fair, slack)
    {
      UnderTimes(c.value, cycle.value, g.iterations, tolerance, fair, |g.deps|);
      CoversLess(deps, gains, Added(pred, g.exit, ZERO.Chain(cycle.Iterate(g.iterations)).value),
                 Times(c.value, g.iterations), tolerance, fair, |g.deps|);
    }
  }

  lemma CompleteEntryFromAdded(
      g: Unrolled, predecessors: seq<nat>, deps: Deps, toExit: seq<Option<Bound>>, gains: Gains, tolerance: real, fair: bool, slack: nat)
    requires g.iterations >= 2 && AllCovered(deps, gains, tolerance, fair) && (fair ==> tolerance >= 1.0)
    requires NoLonger(g.deps, g.entry, g.exit, Get(toExit, g.entry), tolerance, fair)
    requires forall pred :: pred in predecessors ==> NoLonger(g.deps, pred, g.exit, Get(toExit, pred), tolerance, fair)
    requires forall pred :: pred in predecessors ==> EntryOfLastAdded(g, pred, toExit, gains.edges)
    requires slack == |g.deps| + gains.count
    ensures CompleteEntry(g, predecessors, deps, tolerance, fair, slack)
  {
    forall pred, l, c | pred in predecessors && IsLatency(g.deps, pred, g.exit, l) && IsLatency(g.deps, g.entry, g.exit, c)
      ensures Covers(deps, pred, g.entry, EntryWeight(g, l.value, c.value), tolerance, fair, slack)
    {
      CompleteEntryOfLast(g, deps, pred, l, c, toExit, gains, tolerance, fair, slack);
    }
  }

  /** The edges of every back-edge have been added for every predecessor. */
  ghost predicate BackEdgesAdded(
      g: Unrolled, predecessors: seq<nat>, toExit: seq<Option<Bound>>, toPoints: seq<seq<Option<Bound>>>, added: set<Added>)
    requires g.iterations >= 2 && |toPoints| <= |g.backEdges|
  {
    forall pred, e :: pred in predecessors && 0 <= e < |toPoints| ==> BackEdgeAdded(g, e, pred, toExit, toPoints[e], added)
  }

  lemma UsedAreLongest(
      g: Unrolled, predecessors: seq<nat>, toExit: seq<Option<Bound>>, toPoints: seq<seq<Option<Bound>>>, pred: nat, e: nat, x: real,
      tolerance: real, fair: bool)
    requires LongestUsed(g, predecessors, toExit, toPoints, tolerance, fair)
    requires pred in predecessors && e < |g.backEdges| && IsSecondCopy(g, e, pred, x)
    ensures Under(x, SecondCopyOf(g, e, pred, toExit, toPoints[e]).value, tolerance, fair, |g.deps|)
    ensures NoLonger(g.deps, g.backEdges[e].0, g.exit, Get(toExit, g.backEdges[e].0), tolerance, fair)
  {
    assert NoLongerSecondCopy(g, e, pred, toExit, toPoints[e], tolerance, fair);
  }

  lemma CompletePointFromAdded(
      g: Unrolled, predecessors: seq<nat>, deps: Deps,
      toExit: seq<Option<Bound>>, toPoints: seq<seq<Option<Bound>>>, gains: Gains, tolerance: real, fair: bool, slack: nat)
    requires g.iterations >= 2 && |toPoints| == |g.backEdges| && AllCovered(deps, gains, tolerance, fair)
    requires LongestUsed(g, predecessors, toExit, toPoints, tolerance, fair) && (fair ==> tolerance >= 1.0 && BackEdgesNonNegative(g))
    requires BackEdgesAdded(g, predecessors, toExit, toPoints, gains.edges)
    requires slack == |g.deps| + gains.count
    ensures CompletePoint(g, predecessors, deps, tolerance, fair, slack)
  {
    forall pred, e, x | pred in predecessors && 0 <= e < |g.backEdges| && IsSecondCopy(g, e, pred, x)
      ensures Covers(deps, pred, g.backEdges[e].0, PointWeight(g, e, x), tolerance, fair, slack)
    {
      UsedAreLongest(g, predecessors, toExit, toPoints, pred, e, x, tolerance, fair);
      CompleteBackEdge(g, deps, e, pred, x, toExit, toPoints[e], gains, tolerance, fair, slack);
    }
  }

  lemma CompleteAfterFromAdded(
      g: Unrolled, predecessors: seq<nat>, deps: Deps,
      toExit: seq<Option<Bound>>, toPoints: seq<seq<Option<Bound>>>, gains: Gains, tolerance: real, fair: bool, slack: nat)
    requires g.iterations >= 2 && |toPoints| == |g.backEdges| && AllCovered(deps, gains, tolerance, fair)
    requires LongestUsed(g, predecessors, toExit, toPoints, tolerance, fair) && (fair ==> tolerance >= 1.0 && BackEdgesNonNegative(g))
    requires BackEdgesAdded(g, predecessors, toExit, toPoints, gains.edges)
    requires slack == |g.deps| + gains.count
    ensures CompleteAfter(g, predecessors, deps, tolerance, fair, slack)
  {
    if g.iterations >= 3 {
      forall pred, e, x, o | pred in predecessors && 0 <= e < |g.backEdges| && IsSecondCopy(g, e, pred, x) &&
          IsLatency(g.deps, g.backEdges[e].0, g.exit, o)
        ensures Covers(deps, pred, g.entry, AfterWeight(g, e, x, o.value), tolerance, fair, slack)
      {
        UsedAreLongest(g, predecessors, toExit, toPoints, pred, e, x, tolerance, fair);
        CompleteAfterBackEdges(g, deps, e, pred, x, o, toExit, toPoints[e], gains, tolerance, fair, slack);
      }
    }
  }

  lemma MoreOffers(deps: Deps, gains: Gains, more: Gains, tolerance: real, fair: bool)
    requires AllCovered(deps, gains, tolerance, fair) && more.edges == gains.edges && gains.count <= more.count
    requires fair ==> tolerance >= 1.0 && NonNegative(deps)
    ensures AllCovered(deps, more, tolerance, fair)
  {
    forall e | e in gains.edges ensures Covers(deps, e.from, e.to, e.weight, tolerance, fair, more.count) {
      MoreSlack(deps, e.from, e.to, e.weight, tolerance, fair, gains.count, more.count);
    }
  }

  /** What a map gained is enough for the level, up to the factors of the latencies used and of the edges offered. */
  lemma CompleteFromAdded(
      g: Unrolled, predecessors: seq<nat>, deps: Deps,
      toExit: seq<Option<Bound>>, toPoints: seq<seq<Option<Bound>>>, gains: Gains, tolerance: real, fair: bool)
    requires LevelOk(g, predecessors) && AddedAll(g, predecessors, toExit, toPoints, gains.edges, tolerance)
    requires AllCovered(deps, gains, tolerance, fair) && gains.count <= Offers(g, predecessors)
    requires fair ==> tolerance >= 1.0 && NonNegative(g.deps) && BackEdgesNonNegative(g) && NonNegative(deps)
    ensures Complete(g, predecessors, deps, tolerance, fair, Slack(g, predecessors))
  {
    var more := Gains(gains.edges, Offers(g, predecessors));
    MoreOffers(deps, gains, more, tolerance, fair);
    LongestAreUsed(g, predecessors, toExit, toPoints, tolerance, fair);
    CompleteFromGains(g, predecessors, deps, toExit, toPoints, more, tolerance, fair, Slack(g, predecessors));
  }

  lemma CompleteFromGains(
      g: Unrolled, predecessors: seq<nat>, deps: Deps,
      toExit: seq<Option<Bound>>, toPoints: seq<seq<Option<Bound>>>, more: Gains, tolerance: real, fair: bool, slack: nat)
    requires AddedAll(g, predecessors, toExit, toPoints, more.edges, tolerance) && AllCovered(deps, more, tolerance, fair)
    requires LongestUsed(g, predecessors, toExit, toPoints, tolerance, fair) && (fair ==> tolerance >= 1.0 && BackEdgesNonNegative(g))
    requires slack == |g.deps| + more.count
    ensures Complete(g, predecessors, deps, tolerance, fair, slack)
  {
    CompleteExitFromAdded(g, deps, toExit, more, tolerance, fair, slack);
    CompleteEntryFromAdded(g, predecessors, deps, toExit, more, tolerance, fair, slack);
    CompletePointFromAdded(g, predecessors, deps, toExit, toPoints, more, tolerance, fair, slack);
    CompleteAfterFromAdded(g, predecessors, deps, toExit, toPoints, more, tolerance, fair, slack);
  }

  /** The factors of the tolerance that the latencies used and the edges offered may lose. */
  function Slack(g: Unrolled, predecessors: seq<nat>): nat
    requires g.entry < |g.deps|
  {
    |g.deps| + Offers(g, predecessors)
  }

  /** How many edges a repetition offers to a map at most. */
  function Offers(g: Unrolled, predecessors: seq<nat>): nat
    requires g.entry < |g.deps|
  {
    |g.deps[g.entry]| + |predecessors| + PerBackEdge(predecessors, |g.backEdges|)
  }

  /** Two edges from each predecessor for each of `n` back-edges. */
  function PerBackEdge(predecessors: seq<nat>, n: nat): nat {
    if n == 0 then 0 else PerBackEdge(predecessors, n - 1) + 2 * |predecessors|
  }

  // ----- The method -----

  /** The state of the maps while the level `g` is being repeated. */
  ghost predicate Level(g: Unrolled, predecessors: seq<nat>, entry: nat, exit: nat, iterations: nat) {
    LevelOk(g, predecessors) && NonNegative(g.deps) && g.entry == entry && g.exit == exit && g.iterations == iterations
  }

  /** The latency of a path, and a repeated one, are not negative. */
  lemma LatencyNonNegative(g: Unrolled, from: nat, to: nat, latency: Bound, n: nat)
    requires NonNegative(g.deps) && IsLatency(g.deps, from, to, latency)
    ensures latency.value >= 0.0 && Times(latency.value, n) >= 0.0
  {
    var p :| IsPath(g.deps, p, from, to) && p.Latency(g.deps) == latency;
    PathNonNegative(g.deps, p);
    TimesNonNegative(latency.value, n);
  }

  /** The edges that ignore the data dependencies of the first and last iterations. */
  method AddAllIterations(
      dag: LevelDag, from: nat, to: seq<nat>, ghost g: Unrolled, ghost before: seq<Deps>, ghost predecessors: seq<nat>,
      cycleLat: Bound, entry: nat, exit: nat, iterations: nat, tolerance: real) returns (ghost gains: Gains)
    requires Repeating(dag, from, to, g, before, Gains({}, 0), tolerance) && Level(g, predecessors, entry, exit, iterations)
    requires IsLatency(g.deps, entry, exit, cycleLat)
    modifies dag.nodes
    ensures Repeating(dag, from, to, g, before, gains, tolerance) && gains.count == |g.deps[entry]|
    ensures forall pred :: pred in g.deps[entry] ==> AllIterationsAdded(g, pred, cycleLat, gains.edges)
  {
    var latency := ZERO.Chain(cycleLat.Iterate(iterations));
    var immediate := dag.nodes[from].deps[entry].Keys;
    gains := Gains({}, 0);
    LatencyNonNegative(g, entry, exit, cycleLat, iterations);
    while immediate != {}
      invariant immediate <= g.deps[entry].Keys
      invariant Repeating(dag, from, to, g, before, gains, tolerance) && gains.count == |g.deps[entry].Keys| - |immediate|
      invariant forall pred :: pred in g.deps[entry] && pred !in immediate ==> AllIterationsAdded(g, pred, cycleLat, gains.edges)
      decreases immediate
    {
      var pred :| pred in immediate;
      AllIterationsMatched(g, pred, cycleLat);
      AddAccelerated(dag, from, to, g, before, gains, pred, exit, latency, tolerance);
      gains := gains.Gain(pred, exit, latency.value);
      immediate := immediate - {pred};
    }
    assert |g.deps[entry].Keys| == |g.deps[entry]|;
  }

  /** The edges that take the data dependencies of the first iteration into account. */
  method AddEntryOfLast(
      dag: LevelDag, ghost from: nat, to: seq<nat>, ghost g: Unrolled, ghost before: seq<Deps>, ghost gains: Gains,
      predecessors: seq<nat>, latencyToExit: seq<Option<Bound>>, entry: nat, exit: nat, iterations: nat, tolerance: real)
      returns (ghost gains': Gains)
    requires Repeating(dag, from, to, g, before, gains, tolerance) && Level(g, predecessors, entry, exit, iterations)
    requires LatenciesTo(g.deps, exit, latencyToExit, tolerance)
    modifies dag.nodes
    ensures Repeating(dag, from, to, g, before, gains', tolerance) && gains.edges <= gains'.edges
    ensures gains'.count == gains.count + |predecessors|
    ensures forall pred :: pred in predecessors ==> EntryOfLastAdded(g, pred, latencyToExit, gains'.edges)
  {
    var cycleLat := latencyToExit[entry].value;
    gains' := gains;
    for k := 0 to |predecessors|
      invariant Repeating(dag, from, to, g, before, gains', tolerance) && gains.edges <= gains'.edges
      invariant gains'.count == gains.count + k
      invariant forall j :: 0 <= j < k ==> EntryOfLastAdded(g, predecessors[j], latencyToExit, gains'.edges)
    {
      var pred := predecessors[k];
      EntryLatency(g, predecessors, k, latencyToExit, tolerance);
      var latency := latencyToExit[pred].value.Chain(cycleLat.Iterate(iterations - 2));
      AddAccelerated(dag, from, to, g, before, gains', pred, entry, latency, tolerance);
      gains' := gains'.Gain(pred, entry, latency.value);
    }
  }

  /** The edge to the entry of the last iteration stands for a path of the unrolled level. */
  lemma EntryLatency(g: Unrolled, predecessors: seq<nat>, k: nat, toExit: seq<Option<Bound>>, tolerance: real)
    requires LevelOk(g, predecessors) && NonNegative(g.deps) && k < |predecessors| && LatenciesTo(g.deps, g.exit, toExit, tolerance)
    ensures predecessors[k] < g.entry && toExit[predecessors[k]].Some? && toExit[g.entry].Some?
    ensures
      var latency := toExit[predecessors[k]].value.Chain(toExit[g.entry].value.Iterate(g.iterations - 2));
      latency.value >= 0.0 && Accelerated(g, predecessors[k], g.entry, latency)
  {
    var pred := predecessors[k];
    assert Precedes(g, pred);
    ReachesVia(g.deps, pred, g.entry, g.exit);
    ReachesIncreases(g.deps, pred, g.entry);
    LatencyNonNegative(g, pred, g.exit, toExit[pred].value, 0);
    LatencyNonNegative(g, g.entry, g.exit, toExit[g.entry].value, g.iterations - 2);
    EntryOfLastMatched(g, pred, toExit[pred].value, toExit[g.entry].value);
  }

  /** The edges from one predecessor due to one back-edge. */
  method AddBackEdgeFrom(
      dag: LevelDag, ghost from: nat, to: seq<nat>, ghost g: Unrolled, ghost before: seq<Deps>, ghost gains: Gains,
      ghost e: nat, ghost predecessors: seq<nat>, ghost k: nat, pred: nat, point: nat, lat: Bound,
      latencies: seq<Option<Bound>>, latencyToExit: seq<Option<Bound>>,
      entry: nat, exit: nat, iterations: nat, tolerance: real)
      returns (ghost gains': Gains)
    requires Repeating(dag, from, to, g, before, gains, tolerance) && Level(g, predecessors, entry, exit, iterations)
    requires e < |g.backEdges| && g.backEdges[e] == (point, lat) && k < |predecessors| && predecessors[k] == pred
    requires LatenciesTo(g.deps, exit, latencyToExit, tolerance) && LatenciesTo(g.deps, point, latencies, tolerance)
    modifies dag.nodes
    ensures Repeating(dag, from, to, g, before, gains', tolerance) && gains.edges <= gains'.edges
    ensures gains'.count <= gains.count + 2
    ensures BackEdgeAdded(g, e, pred, latencyToExit, latencies, gains'.edges)
  {
    PointIsReady(g, predecessors, k, e, latencyToExit, latencies, tolerance);
    var initLat := SecondCopy(latencies[pred].value, latencyToExit[pred].value, latencies[entry].value, lat);
    gains' := AddPointEdges(dag, from, to, g, before, gains, e, pred, point, lat, initLat, latencyToExit[point].value,
                            entry, iterations, tolerance);
    BackEdgeIsAdded(g, e, pred, point, lat, latencyToExit, latencies, initLat, gains'.edges);
  }

  /** What the edges due to a back-edge stand for is known. */
  ghost predicate PointReady(g: Unrolled, e: nat, pred: nat, init: Bound, exitLat: Bound) {
    && e < |g.backEdges| && g.iterations >= 2 && NonNegative(g.deps)
    && var (point, lat) := g.backEdges[e];
       var latency := init.Chain(lat.Iterate(g.iterations - 2));
       && pred < g.entry < point < |g.deps| && init.value >= 0.0
       && IsLatency(g.deps, point, g.exit, exitLat) && Matched(g, pred, 0, point, 1, init.value)
       && Accelerated(g, pred, point, latency) && (BackEdgesNonNegative(g) ==> latency.value >= 0.0)
  }

  lemma PointIsReady(
      g: Unrolled, predecessors: seq<nat>, k: nat, e: nat,
      toExit: seq<Option<Bound>>, toPoint: seq<Option<Bound>>, tolerance: real)
    requires LevelOk(g, predecessors) && NonNegative(g.deps) && k < |predecessors| && e < |g.backEdges|
    requires LatenciesTo(g.deps, g.exit, toExit, tolerance)
    requires LatenciesTo(g.deps, g.backEdges[e].0, toPoint, tolerance)
    ensures
      var pred, point := predecessors[k], g.backEdges[e].0;
      && pred < g.entry < point < g.exit
      && toExit[pred].Some? && toPoint[pred].Some? && toPoint[g.entry].Some? && toExit[point].Some?
      && PointReady(g, e, pred, SecondCopy(toPoint[pred].value, toExit[pred].value, toPoint[g.entry].value, g.backEdges[e].1),
                    toExit[point].value)
  {
    PredecessorLatencies(g, predecessors, k, e, toExit, toPoint, tolerance);
    var pred := predecessors[k];
    PointLatency(g, e, pred, toPoint[pred].value, toExit[pred].value, toPoint[g.entry].value,
                 SecondCopy(toPoint[pred].value, toExit[pred].value, toPoint[g.entry].value, g.backEdges[e].1));
  }

  /** The edge to the node of the back-edge, and the one to the entry of the last iteration. */
  method AddPointEdges(
      dag: LevelDag, ghost from: nat, to: seq<nat>, ghost g: Unrolled, ghost before: seq<Deps>, ghost gains: Gains,
      ghost e: nat, pred: nat, point: nat, lat: Bound, initLat: Bound, exitLat: Bound, entry: nat, iterations: nat, tolerance: real)
      returns (ghost gains': Gains)
    requires Repeating(dag, from, to, g, before, gains, tolerance) && PointReady(g, e, pred, initLat, exitLat)
    requires g.backEdges[e] == (point, lat) && g.entry == entry && g.iterations == iterations
    modifies dag.nodes
    ensures Repeating(dag, from, to, g, before, gains', tolerance) && gains.edges <= gains'.edges
    ensures gains'.count <= gains.count + 2
    ensures Added(pred, point, initLat.Chain(lat.Iterate(iterations - 2)).value) in gains'.edges
    ensures iterations >= 3 ==>
              Added(pred, entry, initLat.Chain(lat.Iterate(iterations - 3)).Chain(exitLat).value) in gains'.edges
  {
    var latency := initLat.Chain(lat.Iterate(iterations - 2));
    AddAccelerated(dag, from, to, g, before, gains, pred, point, latency, tolerance);
    gains' := gains.Gain(pred, point, latency.value);
    if iterations >= 3 {
      gains' := AddAfterBackEdges(dag, from, to, g, before, gains', e, pred, lat, initLat, exitLat, entry, iterations, tolerance);
    }
  }

  /** The edge to the last copy of the node stands for a path of the unrolled level. */
  lemma PointLatency(g: Unrolled, e: nat, pred: nat, toPoint: Bound, toExit: Bound, entryToPoint: Bound, init: Bound)
    requires NonNegative(g.deps) && e < |g.backEdges| && init == SecondCopy(toPoint, toExit, entryToPoint, g.backEdges[e].1)
    requires IsLatency(g.deps, pred, g.exit, toExit) && IsLatency(g.deps, g.entry, g.backEdges[e].0, entryToPoint)
    requires pred < g.entry <= g.backEdges[e].0 && g.iterations >= 2 && Matched(g, pred, 0, g.backEdges[e].0, 1, init.value)
    ensures init.value >= 0.0
    ensures
      var (point, lat) := g.backEdges[e];
      var latency := init.Chain(lat.Iterate(g.iterations - 2));
      Accelerated(g, pred, point, latency) && (BackEdgesNonNegative(g) ==> latency.value >= 0.0)
  {
    LatencyNonNegative(g, pred, g.exit, toExit, 0);
    LatencyNonNegative(g, g.entry, g.backEdges[e].0, entryToPoint, 0);
    if BackEdgesNonNegative(g) {
      TimesNonNegative(g.backEdges[e].1.value, g.iterations - 2);
    }
    PointOfLastMatched(g, e, pred, init);
  }

  lemma BackEdgeIsAdded(
      g: Unrolled, e: nat, pred: nat, point: nat, lat: Bound, toExit: seq<Option<Bound>>, toPoint: seq<Option<Bound>>,
      init: Bound, added: set<Added>)
    requires g.iterations >= 2 && e < |g.backEdges| && g.backEdges[e] == (point, lat)
    requires init == SecondCopyOf(g, e, pred, toExit, toPoint)
    requires Added(pred, point, init.Chain(lat.Iterate(g.iterations - 2)).value) in added
    requires g.iterations >= 3 ==>
               Added(pred, g.entry, init.Chain(lat.Iterate(g.iterations - 3)).Chain(Get(toExit, point)).value) in added
    ensures BackEdgeAdded(g, e, pred, toExit, toPoint, added)
  {
  }

  /** The edge to the entry of the last iteration, through all the back-edges but one. */
  method AddAfterBackEdges(
      dag: LevelDag, ghost from: nat, to: seq<nat>, ghost g: Unrolled, ghost before: seq<Deps>, ghost gains: Gains,
      ghost e: nat, pred: nat, lat: Bound, initLat: Bound, exitLat: Bound, entry: nat, iterations: nat, tolerance: real)
      returns (ghost gains': Gains)
    requires Repeating(dag, from, to, g, before, gains, tolerance) && pred < entry < dag.size && NonNegative(g.deps)
    requires e < |g.backEdges| && g.backEdges[e].1 == lat && g.entry == entry && g.iterations == iterations >= 3
    requires IsLatency(g.deps, g.backEdges[e].0, g.exit, exitLat) && Matched(g, pred, 0, g.backEdges[e].0, 1, initLat.value)
    requires initLat.value >= 0.0
    modifies dag.nodes
    ensures Repeating(dag, from, to, g, before, gains', tolerance)
    ensures gains' == gains.Gain(pred, entry, initLat.Chain(lat.Iterate(iterations - 3)).Chain(exitLat).value)
  {
    EntryAfterBackEdgesMatched(g, e, pred, initLat, exitLat);
    LatencyNonNegative(g, g.backEdges[e].0, g.exit, exitLat, 0);
    if BackEdgesNonNegative(g) { TimesNonNegative(g.backEdges[e].1.value, iterations - 3); }
    var toEntry := initLat.Chain(lat.Iterate(iterations - 3)).Chain(exitLat);
    AddAccelerated(dag, from, to, g, before, gains, pred, entry, toEntry, tolerance);
    gains' := gains.Gain(pred, entry, toEntry.value);
  }

  /** The edges from the first `k` predecessors due to one back-edge. */
  ghost predicate AddedFor(
      g: Unrolled, e: nat, predecessors: seq<nat>, k: nat, toExit: seq<Option<Bound>>, toPoint: seq<Option<Bound>>, added: set<Added>)
    requires g.iterations >= 2 && e < |g.backEdges| && k <= |predecessors|
  {
    forall j :: 0 <= j < k ==> BackEdgeAdded(g, e, predecessors[j], toExit, toPoint, added)
  }

  lemma AddedForNext(
      g: Unrolled, e: nat, predecessors: seq<nat>, k: nat, toExit: seq<Option<Bound>>, toPoint: seq<Option<Bound>>,
      added: set<Added>, added': set<Added>)
    requires g.iterations >= 2 && e < |g.backEdges| && k < |predecessors| && added <= added'
    requires AddedFor(g, e, predecessors, k, toExit, toPoint, added)
    requires BackEdgeAdded(g, e, predecessors[k], toExit, toPoint, added')
    ensures AddedFor(g, e, predecessors, k + 1, toExit, toPoint, added')
  {
  }

  /** The edges due to one back-edge of the level. */
  method AddBackEdge(
      dag: LevelDag, from: nat, to: seq<nat>, ghost g: Unrolled, ghost before: seq<Deps>, ghost gains: Gains,
      ghost e: nat, predecessors: seq<nat>, point: nat, lat: Bound, latencyToExit: seq<Option<Bound>>,
      entry: nat, exit: nat, iterations: nat, tolerance: real)
      returns (ghost toPoint: seq<Option<Bound>>, ghost gains': Gains)
    requires Repeating(dag, from, to, g, before, gains, tolerance) && Level(g, predecessors, entry, exit, iterations)
    requires e < |g.backEdges| && g.backEdges[e] == (point, lat)
    requires LatenciesTo(g.deps, exit, latencyToExit, tolerance)
    modifies dag.nodes
    ensures Repeating(dag, from, to, g, before, gains', tolerance) && gains.edges <= gains'.edges
    ensures gains'.count <= gains.count + 2 * |predecessors|
    ensures LatenciesTo(g.deps, point, toPoint, tolerance)
    ensures forall pred :: pred in predecessors ==> BackEdgeAdded(g, e, pred, latencyToExit, toPoint, gains'.edges)
  {
    assert BackEdgeOk(g, e);
    ReachesIncreases(g.deps, entry, point);
    var latencies := ComputeLatencies(dag.nodes[from], point, tolerance);
    toPoint, gains' := latencies, gains;
    for k := 0 to |predecessors|
      invariant Repeating(dag, from, to, g, before, gains', tolerance) && gains.edges <= gains'.edges
      invariant gains'.count <= gains.count + 2 * k
      invariant AddedFor(g, e, predecessors, k, latencyToExit, latencies, gains'.edges)
    {
      ghost var done := gains';
      gains' := AddBackEdgeFrom(dag, from, to, g, before, gains', e, predecessors, k, predecessors[k], point, lat,
                                latencies, latencyToExit, entry, exit, iterations, tolerance);
      AddedForNext(g, e, predecessors, k, latencyToExit, latencies, done.edges, gains'.edges);
    }
  }

  /** The edges due to the back-edges of the level. */
  method AddBackEdges(
      dag: LevelDag, from: nat, to: seq<nat>, ghost g: Unrolled, ghost before: seq<Deps>, ghost gains: Gains,
      predecessors: seq<nat>, backEdges: seq<(nat, Bound)>, latencyToExit: seq<Option<Bound>>,
      entry: nat, exit: nat, iterations: nat, tolerance: real)
      returns (ghost toPoints: seq<seq<Option<Bound>>>, ghost gains': Gains)
    requires Repeating(dag, from, to, g, before, gains, tolerance) && Level(g, predecessors, entry, exit, iterations)
    requires g.backEdges == backEdges && LatenciesTo(g.deps, exit, latencyToExit, tolerance)
    modifies dag.nodes
    ensures Repeating(dag, from, to, g, before, gains', tolerance) && gains.edges <= gains'.edges
    ensures gains'.count <= gains.count + PerBackEdge(predecessors, |backEdges|)
    ensures AllLatencies(g, latencyToExit, toPoints, tolerance)
    ensures BackEdgesAdded(g, predecessors, latencyToExit, toPoints, gains'.edges)
  {
    toPoints, gains' := [], gains;
    for e := 0 to |backEdges|
      invariant Repeating(dag, from, to, g, before, gains', tolerance) && gains.edges <= gains'.edges
      invariant gains'.count <= gains.count + PerBackEdge(predecessors, e)
      invariant |toPoints| == e && PointLatencies(g, toPoints, tolerance)
      invariant BackEdgesAdded(g, predecessors, latencyToExit, toPoints, gains'.edges)
    {
      ghost var toPoint;
      ghost var done := gains';
      toPoint, gains' := AddBackEdge(dag, from, to, g, before, gains', e, predecessors, backEdges[e].0, backEdges[e].1,
                                     latencyToExit, entry, exit, iterations, tolerance);
      BackEdgesExtend(g, predecessors, latencyToExit, toPoints, toPoint, done.edges, gains'.edges, tolerance);
      toPoints := toPoints + [toPoint];
    }
  }

  lemma BackEdgesExtend(
      g: Unrolled, predecessors: seq<nat>, toExit: seq<Option<Bound>>, toPoints: seq<seq<Option<Bound>>>,
      toPoint: seq<Option<Bound>>, added: set<Added>, added': set<Added>, tolerance: real)
    requires g.iterations >= 2 && |toPoints| < |g.backEdges| && added <= added'
    requires PointLatencies(g, toPoints, tolerance) && LatenciesTo(g.deps, g.backEdges[|toPoints|].0, toPoint, tolerance)
    requires BackEdgesAdded(g, predecessors, toExit, toPoints, added)
    requires forall pred :: pred in predecessors ==> BackEdgeAdded(g, |toPoints|, pred, toExit, toPoint, added')
    ensures PointLatencies(g, toPoints + [toPoint], tolerance)
    ensures BackEdgesAdded(g, predecessors, toExit, toPoints + [toPoint], added')
  {
  }

  /** The latencies a predecessor of the level needs are known. */
  lemma PredecessorLatencies(
      g: Unrolled, predecessors: seq<nat>, k: nat, e: nat,
      toExit: seq<Option<Bound>>, toPoint: seq<Option<Bound>>, tolerance: real)
    requires LevelOk(g, predecessors) && k < |predecessors| && e < |g.backEdges|
    requires LatenciesTo(g.deps, g.exit, toExit, tolerance)
    requires LatenciesTo(g.deps, g.backEdges[e].0, toPoint, tolerance)
    ensures
      var pred, point := predecessors[k], g.backEdges[e].0;
      && pred < g.entry < point < g.exit
      && toExit[pred].Some? && toPoint[pred].Some? && toPoint[g.entry].Some? && toExit[point].Some?
      && IsLatency(g.deps, pred, point, toPoint[pred].value) && IsLatency(g.deps, pred, g.exit, toExit[pred].value)
      && IsLatency(g.deps, g.entry, point, toPoint[g.entry].value)
      && IsLatency(g.deps, point, g.exit, toExit[point].value)
      && Matched(g, pred, 0, point, 1,
                 SecondCopy(toPoint[pred].value, toExit[pred].value, toPoint[g.entry].value, g.backEdges[e].1).value)
  {
    var pred, point := predecessors[k], g.backEdges[e].0;
    assert Precedes(g, pred) && BackEdgeOk(g, e);
    ReachesVia(g.deps, pred, g.entry, g.exit);
    ReachesVia(g.deps, pred, g.entry, point);
    ReachesIncreases(g.deps, pred, g.entry);
    ReachesIncreases(g.deps, g.entry, point);
    ReachesIncreases(g.deps, point, g.exit);
    SecondCopyMatched(g, e, pred, toPoint[pred].value, toExit[pred].value, toPoint[g.entry].value);
  }

  /** What was added is enough for the level, whatever map it is added to. */
  ghost predicate AddedAll(
      g: Unrolled, predecessors: seq<nat>, toExit: seq<Option<Bound>>, toPoints: seq<seq<Option<Bound>>>, added: set<Added>,
      tolerance: real)
  {
    && g.iterations >= 2 && g.entry < |g.deps| && AllLatencies(g, toExit, toPoints, tolerance)
    && (forall pred :: pred in g.deps[g.entry] ==> AllIterationsAdded(g, pred, Get(toExit, g.entry), added))
    && (forall pred :: pred in predecessors ==> EntryOfLastAdded(g, pred, toExit, added))
    && BackEdgesAdded(g, predecessors, toExit, toPoints, added)
  }

  /** Adds all the edges of the repetition. */
  method AddEdges(
      dag: LevelDag, from: nat, to: seq<nat>, ghost g: Unrolled, ghost before: seq<Deps>, entry: nat, exit: nat,
      predecessors: seq<nat>, backEdges: seq<(nat, Bound)>, iterations: nat, tolerance: real)
      returns (ghost toExit: seq<Option<Bound>>, ghost toPoints: seq<seq<Option<Bound>>>, ghost gains: Gains)
    requires Repeating(dag, from, to, g, before, Gains({}, 0), tolerance) && Level(g, predecessors, entry, exit, iterations)
    requires g.backEdges == backEdges
    modifies dag.nodes
    ensures Repeating(dag, from, to, g, before, gains, tolerance)
    ensures AddedAll(g, predecessors, toExit, toPoints, gains.edges, tolerance) && gains.count <= Offers(g, predecessors)
  {
    var latencyToExit := ComputeLatencies(dag.nodes[from], exit, tolerance);
    gains := AddAllIterations(dag, from, to, g, before, predecessors, latencyToExit[entry].value,
                              entry, exit, iterations, tolerance);
    gains := AddEntryOfLast(dag, from, to, g, before, gains, predecessors, latencyToExit,
                            entry, exit, iterations, tolerance);
    toPoints, gains := AddBackEdges(dag, from, to, g, before, gains, predecessors, backEdges, latencyToExit,
                                    entry, exit, iterations, tolerance);
    toExit := latencyToExit;
  }

  /** The map gained matched edges only, and all those the repetition promises. */
  ghost predicate Repeated(g: Unrolled, predecessors: seq<nat>, before: Deps, after: Deps, tolerance: real) {
    && g.iterations >= 2 && g.entry < |g.deps|
    && Extends(g, before, after)
    && Complete(g, predecessors, after, tolerance, Fair(g, before, tolerance), Slack(g, predecessors))
    && (Fair(g, before, tolerance) ==> NonNegative(after))
  }

  lemma IsRepeated(
      g: Unrolled, predecessors: seq<nat>, before: Deps, after: Deps,
      toExit: seq<Option<Bound>>, toPoints: seq<seq<Option<Bound>>>, gains: Gains, tolerance: real)
    requires LevelOk(g, predecessors) && AddedAll(g, predecessors, toExit, toPoints, gains.edges, tolerance)
    requires Extends(g, before, after) && Gained(g, before, after, gains, tolerance) && gains.count <= Offers(g, predecessors)
    ensures Repeated(g, predecessors, before, after, tolerance)
  {
    CompleteFromAdded(g, predecessors, after, toExit, toPoints, gains, tolerance, Fair(g, before, tolerance));
  }

  /**
   Repeats a level: the maps in `to` only gain edges matched in the unrolled level, they gain
   all those the repetition promises, and no other map changes.
   */
  method RepeatLevel(
      dag: LevelDag, from: nat, to: seq<nat>, entry: nat, exit: nat,
      predecessors: seq<nat>, backEdges: seq<(nat, Bound)>, iterations: nat, tolerance: real)
    requires dag.Valid() && from < |dag.nodes| && from !in to
    requires forall k :: 0 <= k < |to| ==> to[k] < |dag.nodes|
    requires forall i, j :: 0 <= i < j < |to| ==> to[i] != to[j]
    requires LevelOk(Unrolled(dag.nodes[from].deps, entry, exit, backEdges, iterations), predecessors)
    requires NonNegative(dag.nodes[from].deps)
    modifies dag.nodes
    ensures dag.Valid()
    ensures forall i :: 0 <= i < |dag.nodes| && i !in to ==> dag.nodes[i].deps == old(dag.nodes[i].deps)
    ensures
      var g := Unrolled(old(dag.nodes[from].deps), entry, exit, backEdges, iterations);
      forall k :: 0 <= k < |to| ==> Repeated(g, predecessors, old(dag.nodes[to[k]].deps), dag.nodes[to[k]].deps, tolerance)
    ensures tolerance == 1.0 ==> forall i, j | 0 <= i < |dag.nodes| && 0 <= j < |dag.nodes| && (i in to ==> j in to) ::
              old(AtLeast(dag.nodes[j].deps, dag.nodes[i].deps)) ==> AtLeast(dag.nodes[j].deps, dag.nodes[i].deps)
  {
    ghost var g := Unrolled(dag.nodes[from].deps, entry, exit, backEdges, iterations);
    ghost var before := seq(|dag.nodes|, i requires 0 <= i < |dag.nodes| reads dag.nodes, dag => dag.nodes[i].deps);
    ghost var toExit, toPoints, gains := AddEdges(dag, from, to, g, before, entry, exit, predecessors, backEdges, iterations, tolerance);
    forall k | 0 <= k < |to| ensures Repeated(g, predecessors, before[to[k]], dag.nodes[to[k]].deps, tolerance) {
      IsRepeated(g, predecessors, before[to[k]], dag.nodes[to[k]].deps, toExit, toPoints, gains, tolerance);
    }
    if tolerance == 1.0 {
      MapsKeepOrder(dag, from, to, g, before, gains, tolerance);
    }
  }

  /** A map that was at least as late as another stays so, unless only the other one gains edges. */
  lemma MapsKeepOrder(dag: LevelDag, from: nat, to: seq<nat>, g: Unrolled, before: seq<Deps>, gains: Gains, tolerance: real)
    requires Repeating(dag, from, to, g, before, gains, tolerance) && tolerance == 1.0
    ensures forall i, j | 0 <= i < |before| && 0 <= j < |before| && (i in to ==> j in to) ::
              AtLeast(before[j], before[i]) ==> AtLeast(dag.nodes[j].deps, dag.nodes[i].deps)
  {
    forall i, j | 0 <= i < |before| && 0 <= j < |before| && (i in to ==> j in to) && AtLeast(before[j], before[i])
      ensures AtLeast(dag.nodes[j].deps, dag.nodes[i].deps)
    {
      if j in to {
        var k :| 0 <= k < |to| && to[k] == j;
        if i in to {
          var l :| 0 <= l < |to| && to[l] == i;
          assert AtLeast(before[to[k]], before[to[l]]);
        } else {
          AtLeastTrans(dag.nodes[j].deps, before[j], before[i]);
        }
      }
    }
  }

  // ----- Several repetitions -----

  /** A map for more levels is at least as late as a map for fewer of them. */
  ghost predicate Layered(levels: seq<set<nat>>, maps: seq<Deps>) {
    |maps| == |levels| && forall i, j :: 0 <= i < |levels| && 0 <= j < |levels| && levels[i] <= levels[j] ==> AtLeast(maps[j], maps[i])
  }

  // ----- Paths of the extended map -----

  lemma {:induction false} WalkAtLeast(g: Unrolled, deps: Deps, w: seq<Step>, a: nat, i: nat, b: nat, j: nat)
    requires AtLeast(deps, g.deps) && IsWalk(g, w, a, i, b, j)
    ensures Matched(g.(deps := deps), a, i, b, j, Weight(w))
  {
    var g' := g.(deps := deps);
    if w == [] {
      MatchedStay(g', a, i);
    } else {
      WalkAtLeast(g, deps, w[1..], w[0].b, w[0].j, b, j);
      var s := w[0];
      var s' := if s.i == s.j then s.(weight := deps[s.b][s.a].value) else s;
      MatchedStep(g', s');
      MatchedConcat(g', a, i, s.b, s.j, b, j, s'.weight, Weight(w[1..]));
      Weaken(g', a, i, b, j, s'.weight + Weight(w[1..]), Weight(w));
    }
  }

  /** From the level on, a path of the extended map uses no accelerated edge. */
  lemma {:induction false} PathAfterEntry(g: Unrolled, old_: Deps, new_: Deps, p: Path)
    requires Extends(g, old_, new_) && Sorted(new_) && p.Valid(new_) && p.from >= g.entry
    ensures p.Valid(old_) && p.Latency(old_) == p.Latency(new_)
  {
    if p.Via? {
      assert p.from < p.Next();
      PathAfterEntry(g, old_, new_, p.rest);
    }
  }

  /**
   A path of the extended map is matched in the level unrolled on top of the map it extends,
   from the first copy of its start to the first or the last copy of its end.
   */
  lemma {:induction false} ExtendedPathMatched(g: Unrolled, old_: Deps, new_: Deps, p: Path)
    requires Extends(g, old_, new_) && Sorted(new_) && p.Valid(new_) && AtLeast(old_, g.deps) && g.iterations > 0
    ensures
      var unrolled := g.(deps := old_);
      var value := p.Latency(new_).value;
      || Matched(unrolled, p.from, 0, p.End(), 0, value)
      || Matched(unrolled, p.from, 0, p.End(), g.iterations - 1, value)
  {
    var mid := p.Next();
    if p.from in old_[mid] && new_[mid][p.from] == old_[mid][p.from] {
      if p.Via? {
        ExtendedPathMatched(g, old_, new_, p.rest);
      }
      KeptEdgeMatched(g, old_, new_, p);
    } else {
      AcceleratedEdgeMatched(g, old_, new_, p);
    }
  }

  lemma KeptEdgeMatched(g: Unrolled, old_: Deps, new_: Deps, p: Path)
    requires p.Valid(new_) && p.Next() < |old_| && g.iterations > 0
    requires p.from in old_[p.Next()] && new_[p.Next()][p.from] == old_[p.Next()][p.from]
    requires p.Via? ==>
               || Matched(g.(deps := old_), p.rest.from, 0, p.End(), 0, p.rest.Latency(new_).value)
               || Matched(g.(deps := old_), p.rest.from, 0, p.End(), g.iterations - 1, p.rest.Latency(new_).value)
    ensures
      || Matched(g.(deps := old_), p.from, 0, p.End(), 0, p.Latency(new_).value)
      || Matched(g.(deps := old_), p.from, 0, p.End(), g.iterations - 1, p.Latency(new_).value)
  {
    var g', mid := g.(deps := old_), p.Next();
    var first := new_[mid][p.from].value;
    MatchedStep(g', Step(p.from, 0, mid, 0, first));
    if p.Via? {
      var value := p.rest.Latency(new_).value;
      var k := if Matched(g', mid, 0, p.End(), 0, value) then 0 else g.iterations - 1;
      MatchedConcat(g', p.from, 0, mid, 0, p.End(), k, first, value);
    }
  }

  lemma AcceleratedEdgeMatched(g: Unrolled, old_: Deps, new_: Deps, p: Path)
    requires Extends(g, old_, new_) && Sorted(new_) && p.Valid(new_) && AtLeast(old_, g.deps) && g.iterations > 0
    requires Accelerated(g, p.from, p.Next(), new_[p.Next()][p.from])
    ensures Matched(g.(deps := old_), p.from, 0, p.End(), g.iterations - 1, p.Latency(new_).value)
  {
    var g', n, mid := g.(deps := old_), g.iterations, p.Next();
    var first := new_[mid][p.from].value;
    var w :| IsWalk(g, w, p.from, 0, mid, n - 1) && Weight(w) >= first;
    WalkAtLeast(g, old_, w, p.from, 0, mid, n - 1);
    Weaken(g', p.from, 0, mid, n - 1, Weight(w), first);
    if p.Via? {
      PathAfterEntry(g, old_, new_, p.rest);
      MatchedPath(g', p.rest, n - 1);
      MatchedConcat(g', p.from, 0, mid, n - 1, p.End(), n - 1, first, p.rest.Latency(new_).value);
    }
  }
}
