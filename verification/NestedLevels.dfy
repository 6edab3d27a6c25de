/**
 The whole nest of levels, unrolled at once: each code point has one copy per tuple of
 iterations. Whatever the order in which levels are repeated, the paths of every map are
 matched in the nest of the levels that were applied to it.
 */
module NestedLevels {
  import opened Wrappers
  import opened DependencyMaps
  import opened UnrolledLevels
  import opened RepeatLevels

  datatype Layer = Layer(entry: nat, exit: nat, backEdges: seq<(nat, Bound)>, iterations: nat)

  function LayerOf(g: Unrolled): Layer {
    Layer(g.entry, g.exit, g.backEdges, g.iterations)
  }

  // ----- The nest -----

  function Zeros(n: nat): (r: seq<nat>)
    ensures |r| == n
  {
    seq<nat>(n, k => 0)
  }

  /** From the end of an iteration of a level to the start of the next one, or along a back-edge. */
  ghost predicate Crosses(layer: Layer, a: nat, b: nat, weight: real) {
    || (a == layer.exit && b == layer.entry && weight == 0.0)
    || (a == b && exists k :: 0 <= k < |layer.backEdges| && layer.backEdges[k].0 == a && layer.backEdges[k].1.value == weight)
  }

  /** Iteration `t` advances: those of the levels repeated before it start again. */
  ghost predicate Turns(layers: seq<Layer>, i: seq<nat>, j: seq<nat>, t: nat) {
    && t < |layers| == |i| == |j|
    && i[t] + 1 < layers[t].iterations
    && (forall k :: 0 <= k < t ==> j[k] == 0) && j[t] == i[t] + 1
    && (forall k :: t < k < |i| ==> j[k] == i[k])
  }

  /** A step to copy `j` of `b`. */
  datatype Hop = Hop(b: nat, j: seq<nat>, weight: real)

  ghost predicate IsHop(deps: Deps, layers: seq<Layer>, a: nat, i: seq<nat>, h: Hop) {
    && |i| == |h.j| == |layers|
    && (|| (h.j == i && h.b < |deps| && a in deps[h.b] && h.weight == deps[h.b][a].value)
        || exists t: nat :: Turns(layers, i, h.j, t) && Crosses(layers[t], a, h.b, h.weight))
  }

  ghost predicate IsRoute(deps: Deps, layers: seq<Layer>, w: seq<Hop>, a: nat, i: seq<nat>, b: nat, j: seq<nat>) {
    if w == [] then a == b && i == j
    else IsHop(deps, layers, a, i, w[0]) && IsRoute(deps, layers, w[1..], w[0].b, w[0].j, b, j)
  }

  ghost function Length(w: seq<Hop>): real {
    if w == [] then 0.0 else w[0].weight + Length(w[1..])
  }

  /** The nest has a route at least as long as `weight`. */
  ghost predicate Routed(deps: Deps, layers: seq<Layer>, a: nat, i: seq<nat>, b: nat, j: seq<nat>, weight: real) {
    exists w :: IsRoute(deps, layers, w, a, i, b, j) && Length(w) >= weight
  }

  lemma {:induction false} RouteConcat(
      deps: Deps, layers: seq<Layer>, w: seq<Hop>, w': seq<Hop>, a: nat, i: seq<nat>, b: nat, j: seq<nat>, c: nat, k: seq<nat>)
    requires IsRoute(deps, layers, w, a, i, b, j) && IsRoute(deps, layers, w', b, j, c, k)
    ensures IsRoute(deps, layers, w + w', a, i, c, k) && Length(w + w') == Length(w) + Length(w')
  {
    if w == [] {
      assert w + w' == w';
    } else {
      RouteConcat(deps, layers, w[1..], w', w[0].b, w[0].j, b, j, c, k);
      assert (w + w')[1..] == w[1..] + w';
    }
  }

  lemma RoutedConcat(
      deps: Deps, layers: seq<Layer>, a: nat, i: seq<nat>, b: nat, j: seq<nat>, c: nat, k: seq<nat>, x: real, y: real)
    requires Routed(deps, layers, a, i, b, j, x) && Routed(deps, layers, b, j, c, k, y)
    ensures Routed(deps, layers, a, i, c, k, x + y)
  {
    var w :| IsRoute(deps, layers, w, a, i, b, j) && Length(w) >= x;
    var w' :| IsRoute(deps, layers, w', b, j, c, k) && Length(w') >= y;
    RouteConcat(deps, layers, w, w', a, i, b, j, c, k);
  }

  lemma RoutedHop(deps: Deps, layers: seq<Layer>, a: nat, i: seq<nat>, h: Hop)
    requires IsHop(deps, layers, a, i, h)
    ensures Routed(deps, layers, a, i, h.b, h.j, h.weight)
  {
    var w := [h];
    assert w[1..] == [] && IsRoute(deps, layers, w[1..], h.b, h.j, h.b, h.j) && Length(w[1..]) == 0.0;
    assert IsRoute(deps, layers, w, a, i, h.b, h.j) && Length(w) == w[0].weight + Length(w[1..]);
  }

  lemma RoutedStay(deps: Deps, layers: seq<Layer>, a: nat, i: seq<nat>)
    ensures Routed(deps, layers, a, i, a, i, 0.0)
  {
    assert IsRoute(deps, layers, [], a, i, a, i) && Length([]) == 0.0;
  }

  // ----- One more level around the nest -----

  lemma HopInside(deps: Deps, layers: seq<Layer>, layer: Layer, a: nat, i: seq<nat>, h: Hop, c: nat)
    requires IsHop(deps, layers, a, i, h)
    ensures IsHop(deps, layers + [layer], a, i + [c], Hop(h.b, h.j + [c], h.weight))
  {
    if !(h.j == i && h.b < |deps| && a in deps[h.b] && h.weight == deps[h.b][a].value) {
      var t: nat :| Turns(layers, i, h.j, t) && Crosses(layers[t], a, h.b, h.weight);
      assert Turns(layers + [layer], i + [c], h.j + [c], t) && (layers + [layer])[t] == layers[t];
    }
  }

  /** A route of the inner nest, inside iteration `c` of one more level. */
  lemma {:induction false} RouteInside(
      deps: Deps, layers: seq<Layer>, layer: Layer, w: seq<Hop>, a: nat, i: seq<nat>, b: nat, j: seq<nat>, c: nat)
    requires IsRoute(deps, layers, w, a, i, b, j)
    ensures Routed(deps, layers + [layer], a, i + [c], b, j + [c], Length(w))
  {
    if w == [] {
      RoutedStay(deps, layers + [layer], a, i + [c]);
    } else {
      RouteInside(deps, layers, layer, w[1..], w[0].b, w[0].j, b, j, c);
      HopInside(deps, layers, layer, a, i, w[0], c);
      RoutedHop(deps, layers + [layer], a, i + [c], Hop(w[0].b, w[0].j + [c], w[0].weight));
      RoutedConcat(deps, layers + [layer], a, i + [c], w[0].b, w[0].j + [c], b, j + [c], w[0].weight, Length(w[1..]));
    }
  }

  /** The next iteration of the outermost level starts the others again. */
  lemma RoutedTurn(deps: Deps, layers: seq<Layer>, layer: Layer, a: nat, i: seq<nat>, b: nat, c: nat, weight: real)
    requires |i| == |layers| && c + 1 < layer.iterations && Crosses(layer, a, b, weight)
    ensures Routed(deps, layers + [layer], a, i + [c], b, Zeros(|layers|) + [c + 1], weight)
  {
    var all, n := layers + [layer], |layers|;
    assert Turns(all, i + [c], Zeros(n) + [c + 1], n) && all[n] == layer;
    RoutedHop(deps, all, a, i + [c], Hop(b, Zeros(n) + [c + 1], weight));
  }

  // ----- Paths of a map -----

  /** The path is matched in the nest, from the first copy of its start. */
  ghost predicate PathRouted(base: Deps, layers: seq<Layer>, map_: Deps, p: Path)
    requires p.Valid(map_)
  {
    exists j :: |j| == |layers| && Routed(base, layers, p.from, Zeros(|layers|), p.End(), j, p.Latency(map_).value)
  }

  ghost predicate AllRouted(base: Deps, layers: seq<Layer>, map_: Deps) {
    forall p: Path :: p.Valid(map_) ==> PathRouted(base, layers, map_, p)
  }

  function Append(p: Path, to: nat): Path {
    match p
    case Direct(from, mid) => Via(from, Direct(mid, to))
    case Via(from, rest) => Via(from, Append(rest, to))
  }

  lemma {:induction false} AppendOk(deps: Deps, p: Path, to: nat)
    requires p.Valid(deps) && to < |deps| && p.End() in deps[to]
    ensures
      var q := Append(p, to);
      && q.Valid(deps) && q.from == p.from && q.Next() == p.Next() && q.End() == to
      && q.Latency(deps).value == p.Latency(deps).value + deps[to][p.End()].value
  {
    if p.Via? {
      AppendOk(deps, p.rest, to);
    }
  }

  /** Inside iteration `c` of one more level, a path of the map is still matched. */
  lemma PathInside(base: Deps, layers: seq<Layer>, layer: Layer, map_: Deps, p: Path, c: nat) returns (j: seq<nat>)
    requires AllRouted(base, layers, map_) && p.Valid(map_)
    ensures |j| == |layers|
    ensures Routed(base, layers + [layer], p.from, Zeros(|layers|) + [c], p.End(), j + [c], p.Latency(map_).value)
  {
    assert PathRouted(base, layers, map_, p);
    j :| |j| == |layers| && Routed(base, layers, p.from, Zeros(|layers|), p.End(), j, p.Latency(map_).value);
    var w :| IsRoute(base, layers, w, p.from, Zeros(|layers|), p.End(), j) && Length(w) >= p.Latency(map_).value;
    RouteInside(base, layers, layer, w, p.from, Zeros(|layers|), p.End(), j, c);
  }

  /** The nest with one more level, unrolled over a map whose paths are matched inside. */
  ghost predicate Around(base: Deps, layers: seq<Layer>, g: Unrolled) {
    AllRouted(base, layers, g.deps)
  }

  function Outer(layers: seq<Layer>, g: Unrolled): seq<Layer> {
    layers + [LayerOf(g)]
  }

  /** The copy where a walk ends, in the nest. */
  ghost predicate Ends(
      base: Deps, layers: seq<Layer>, g: Unrolled, a: nat, i: nat, b: nat, k: nat, weight: real) {
    exists j :: |j| == |layers| && Routed(base, Outer(layers, g), a, Zeros(|layers|) + [i], b, j + [k], weight)
  }

  /** A walk is routed: the dependencies of an iteration form a path, and the next iteration starts the inner levels again. */
  lemma {:induction false} WalkRouted(base: Deps, layers: seq<Layer>, g: Unrolled, w: seq<Step>, a: nat, i: nat, b: nat, k: nat)
    requires Around(base, layers, g) && IsWalk(g, w, a, i, b, k)
    ensures Ends(base, layers, g, a, i, b, k, Weight(w))
    decreases |w|
  {
    if w == [] {
      RoutedStay(base, Outer(layers, g), a, Zeros(|layers|) + [i]);
    } else if w[0].i == w[0].j {
      PathThenWalk(base, layers, g, Direct(a, w[0].b), w[1..], i, b, k);
    } else {
      var s := w[0];
      WalkRouted(base, layers, g, w[1..], s.b, s.j, b, k);
      RoutedTurn(base, layers, LayerOf(g), a, Zeros(|layers|), s.b, i, s.weight);
      EndsAfter(base, layers, g, a, i, Zeros(|layers|), s.b, s.j, b, k, s.weight, Weight(w[1..]));
    }
  }

  lemma EndsAfter(
      base: Deps, layers: seq<Layer>, g: Unrolled, a: nat, i: nat, l: seq<nat>, b: nat, j: nat, c: nat, k: nat, x: real, y: real)
    requires |l| == |layers|
    requires Routed(base, Outer(layers, g), a, l + [i], b, Zeros(|layers|) + [j], x) && Ends(base, layers, g, b, j, c, k, y)
    ensures exists m :: |m| == |layers| && Routed(base, Outer(layers, g), a, l + [i], c, m + [k], x + y)
  {
    var m :| |m| == |layers| && Routed(base, Outer(layers, g), b, Zeros(|layers|) + [j], c, m + [k], y);
    RoutedConcat(base, Outer(layers, g), a, l + [i], b, Zeros(|layers|) + [j], c, m + [k], x, y);
  }

  /** A path made so far in iteration `i`, followed by the rest of the walk. */
  lemma {:induction false} PathThenWalk(base: Deps, layers: seq<Layer>, g: Unrolled, p: Path, w: seq<Step>, i: nat, b: nat, k: nat)
    requires Around(base, layers, g) && p.Valid(g.deps) && IsWalk(g, w, p.End(), i, b, k)
    ensures Ends(base, layers, g, p.from, i, b, k, p.Latency(g.deps).value + Weight(w))
    decreases |w|
  {
    var value := p.Latency(g.deps).value;
    if w != [] && w[0].i == w[0].j {
      AppendOk(g.deps, p, w[0].b);
      PathThenWalk(base, layers, g, Append(p, w[0].b), w[1..], i, b, k);
    } else {
      var l := PathInside(base, layers, LayerOf(g), g.deps, p, i);
      if w != [] {
        TurnThenWalk(base, layers, g, p.End(), i, l, w, b, k);
        var m :| |m| == |layers| && Routed(base, Outer(layers, g), p.End(), l + [i], b, m + [k], Weight(w));
        RoutedConcat(base, Outer(layers, g), p.from, Zeros(|layers|) + [i], p.End(), l + [i], b, m + [k], value, Weight(w));
      }
    }
  }

  lemma {:induction false} TurnThenWalk(
      base: Deps, layers: seq<Layer>, g: Unrolled, a: nat, i: nat, l: seq<nat>, w: seq<Step>, b: nat, k: nat)
    requires Around(base, layers, g) && |l| == |layers| && w != [] && w[0].i != w[0].j && IsWalk(g, w, a, i, b, k)
    ensures exists m :: |m| == |layers| && Routed(base, Outer(layers, g), a, l + [i], b, m + [k], Weight(w))
    decreases |w|, 0
  {
    var s := w[0];
    WalkRouted(base, layers, g, w[1..], s.b, s.j, b, k);
    RoutedTurn(base, layers, LayerOf(g), a, l, s.b, i, s.weight);
    EndsAfter(base, layers, g, a, i, l, s.b, s.j, b, k, s.weight, Weight(w[1..]));
  }

  // ----- Runs -----

  /** A repetition: the map it reads, the dimensions of the level, and what it repeats. */
  datatype Repeat = Repeat(from: nat, dims: set<nat>, layer: Layer)

  /** The maps of `levels` that a repetition extends. */
  ghost predicate Extended(levels: seq<set<nat>>, e: Repeat, k: nat) {
    e.from < |levels| && k < |levels| && levels[e.from] <= levels[k] && e.dims <= levels[k]
  }

  function Over(e: Repeat, deps: Deps): Unrolled {
    Unrolled(deps, e.layer.entry, e.layer.exit, e.layer.backEdges, e.layer.iterations)
  }

  ghost predicate Repeats(levels: seq<set<nat>>, before: seq<Deps>, e: Repeat, after: seq<Deps>) {
    && |before| == |after| == |levels| && e.from < |levels| && e.layer.iterations >= 2
    && (forall k :: 0 <= k < |levels| && !Extended(levels, e, k) ==> after[k] == before[k])
    && (forall k :: 0 <= k < |levels| && Extended(levels, e, k) ==>
          Extends(Over(e, before[e.from]), before[k], after[k]) && Sorted(after[k]))
    && (forall i, j | 0 <= i < |levels| && 0 <= j < |levels| && (Extended(levels, e, i) ==> Extended(levels, e, j)) ::
          AtLeast(before[j], before[i]) ==> AtLeast(after[j], after[i]))
  }

  ghost predicate Run(levels: seq<set<nat>>, run: seq<seq<Deps>>, events: seq<Repeat>) {
    && |run| == |events| + 1 && Layered(levels, run[0])
    && forall i :: 0 <= i < |events| ==> Repeats(levels, run[i], events[i], run[i + 1])
  }

  /** Whatever is repeated, the maps of more levels stay at least as late as those of fewer levels. */
  lemma {:induction false} RunLayered(levels: seq<set<nat>>, run: seq<seq<Deps>>, events: seq<Repeat>, n: nat)
    requires Run(levels, run, events) && n < |run|
    ensures Layered(levels, run[n])
  {
    if n > 0 {
      RunLayered(levels, run, events, n - 1);
      var before, e, after := run[n - 1], events[n - 1], run[n - 1 + 1];
      assert Repeats(levels, before, e, after);
      forall i, j | 0 <= i < |levels| && 0 <= j < |levels| && levels[i] <= levels[j] ensures AtLeast(after[j], after[i]) {
        assert AtLeast(before[j], before[i]);
        assert Extended(levels, e, i) ==> Extended(levels, e, j);
      }
    }
  }

  /** The levels repeated over map `m`, in order. */
  ghost function LayersOf(levels: seq<set<nat>>, events: seq<Repeat>, m: nat): seq<Layer> {
    if events == [] then []
    else
      var rest, last := LayersOf(levels, events[..|events| - 1], m), events[|events| - 1];
      if Extended(levels, last, m) then rest + [last.layer] else rest
  }

  lemma {:induction false} BaseRouted(base: Deps, p: Path)
    requires p.Valid(base)
    ensures PathRouted(base, [], base, p)
  {
    var none := Zeros(0);
    RoutedHop(base, [], p.from, none, Hop(p.Next(), none, base[p.Next()][p.from].value));
    if p.Via? {
      BaseRouted(base, p.rest);
      var j :| |j| == 0 && Routed(base, [], p.rest.from, none, p.End(), j, p.rest.Latency(base).value);
      RoutedConcat(base, [], p.from, none, p.rest.from, none, p.End(), j, base[p.Next()][p.from].value, p.rest.Latency(base).value);
    }
    assert Routed(base, [], p.from, none, p.End(), none, p.Latency(base).value);
  }

  /** One repetition: the paths of the extended map are matched in the nest with one more level. */
  lemma ExtendedRouted(base: Deps, layers: seq<Layer>, g: Unrolled, old_: Deps, new_: Deps)
    requires AllRouted(base, layers, old_) && Extends(g, old_, new_) && Sorted(new_) && AtLeast(old_, g.deps) && g.iterations > 0
    ensures AllRouted(base, Outer(layers, g), new_)
  {
    forall p: Path | p.Valid(new_) ensures PathRouted(base, Outer(layers, g), new_, p) {
      ExtendedPathMatched(g, old_, new_, p);
      var value := p.Latency(new_).value;
      var k := if Matched(g.(deps := old_), p.from, 0, p.End(), 0, value) then 0 else g.iterations - 1;
      MatchedRouted(base, layers, g.(deps := old_), p.from, p.End(), k, value);
      var j :| |j| == |layers| + 1 && Routed(base, Outer(layers, g), p.from, Zeros(|layers| + 1), p.End(), j, value);
    }
  }

  lemma MatchedRouted(base: Deps, layers: seq<Layer>, g: Unrolled, a: nat, b: nat, k: nat, value: real)
    requires Around(base, layers, g) && Matched(g, a, 0, b, k, value)
    ensures exists j :: |j| == |layers| + 1 && Routed(base, Outer(layers, g), a, Zeros(|layers| + 1), b, j, value)
  {
    var w :| IsWalk(g, w, a, 0, b, k) && Weight(w) >= value;
    WalkRouted(base, layers, g, w, a, 0, b, k);
    var j: seq<nat> :| |j| == |layers| && Routed(base, Outer(layers, g), a, Zeros(|layers|) + [0], b, j + [k], Weight(w));
    assert Zeros(|layers|) + [0] == Zeros(|layers| + 1);
    assert |j + [k]| == |layers| + 1 && Routed(base, Outer(layers, g), a, Zeros(|layers| + 1), b, j + [k], value);
  }

  /**
   In whatever order levels are repeated, each path of each map is at most as long as a route of
   the nest of all the levels repeated over it, unrolled over the dependencies it started from.
   */
  lemma {:induction false} NestMatched(levels: seq<set<nat>>, run: seq<seq<Deps>>, events: seq<Repeat>, n: nat, m: nat)
    requires Run(levels, run, events) && n < |run| && m < |levels|
    ensures |run[0]| == |run[n]| == |levels|
    ensures AllRouted(run[0][m], LayersOf(levels, events[..n], m), run[n][m])
  {
    RunLayered(levels, run, events, 0);
    RunLayered(levels, run, events, n);
    if n == 0 {
      forall p: Path | p.Valid(run[0][m]) ensures PathRouted(run[0][m], [], run[0][m], p) {
        BaseRouted(run[0][m], p);
      }
    } else {
      NestMatched(levels, run, events, n - 1, m);
      RunLayered(levels, run, events, n - 1);
      var before, e, after := run[n - 1], events[n - 1], run[n - 1 + 1];
      assert Repeats(levels, before, e, after);
      assert events[..n][..n - 1] == events[..n - 1];
      if Extended(levels, e, m) {
        var g := Over(e, before[e.from]);
        ExtendedRouted(run[0][m], LayersOf(levels, events[..n - 1], m), g, before[m], after[m]);
        assert LayerOf(g) == e.layer;
      }
    }
  }

  // ----- The repetitions of the program -----

  ghost function Maps(dag: LevelDag): (r: seq<Deps>)
    reads dag, dag.nodes
    ensures |r| == |dag.nodes|
  {
    seq(|dag.nodes|, i requires 0 <= i < |dag.nodes| reads dag, dag.nodes => dag.nodes[i].deps)
  }

  /** Repeats a level over the maps of all the sets of levels that contain it and the one it reads. */
  method ProcessRepeat(
      dag: LevelDag, levels: seq<set<nat>>, e: Repeat, predecessors: seq<nat>)
    requires dag.Valid() && |levels| == |dag.nodes| && e.from < |levels| && !(e.dims <= levels[e.from])
    requires LevelOk(Over(e, dag.nodes[e.from].deps), predecessors) && NonNegative(dag.nodes[e.from].deps)
    modifies dag.nodes
    ensures dag.Valid() && Repeats(levels, old(Maps(dag)), e, Maps(dag))
  {
    var to: seq<nat> := [];
    for k := 0 to |levels|
      invariant forall i :: 0 <= i < |to| ==> to[i] < k
      invariant forall i, j :: 0 <= i < j < |to| ==> to[i] != to[j]
      invariant forall i: nat :: i in to <==> i < k && Extended(levels, e, i)
    {
      if levels[e.from] <= levels[k] && e.dims <= levels[k] {
        to := to + [k];
      }
    }
    var tolerance := 1.0;
    RepeatLevel(dag, e.from, to, e.layer.entry, e.layer.exit, predecessors, e.layer.backEdges, e.layer.iterations, tolerance);
  }
}
