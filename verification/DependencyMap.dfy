/**
 Latencies between code points: a sorted dependency graph and the longest-path dynamic
 program over it, proved against explicit dependency paths.
 */
module DependencyMaps {
  import opened Wrappers

  /** The product of a latency and an iteration count. */
  function Times(x: real, n: nat): real {
    if n == 0 then 0.0 else Times(x, n - 1) + x
  }

  lemma {:induction false} TimesIsProduct(x: real, n: nat)
    ensures Times(x, n) == x * n as real
  {
    if n > 0 {
      TimesIsProduct(x, n - 1);
      assert x * n as real == x * (n - 1) as real + x;
    }
  }

  function Power(t: real, n: nat): real {
    if n == 0 then 1.0 else Power(t, n - 1) * t
  }

  /** `x` and `n` factors more. */
  function Limit(t: real, n: nat, x: real): real {
    Power(t, n) * x
  }

  lemma Scale(p: real, x: real, y: real)
    requires p >= 0.0 && x <= y
    ensures p * x <= p * y && x * p <= y * p
  {
  }

  lemma {:induction false} PowerAtLeastOne(t: real, n: nat)
    requires t >= 1.0
    ensures Power(t, n) >= 1.0
  {
    if n > 0 {
      PowerAtLeastOne(t, n - 1);
      Scale(Power(t, n - 1), 1.0, t);
    }
  }

  lemma {:induction false} PowerAdd(t: real, m: nat, n: nat)
    ensures Power(t, m + n) == Power(t, m) * Power(t, n)
  {
    if n > 0 {
      PowerAdd(t, m, n - 1);
      Assoc(Power(t, m), Power(t, n - 1), t);
    }
  }

  lemma Assoc(x: real, y: real, z: real)
    ensures (x * y) * z == x * (y * z)
  {
  }

  lemma Grow(p: real, q: real, x: real)
    requires p >= 0.0 && q >= 1.0 && x >= 0.0
    ensures p * x <= (p * q) * x
  {
    Scale(p, 1.0, q);
    Scale(x, p, p * q);
  }

  lemma PowerMonotone(t: real, m: nat, n: nat, x: real)
    requires t >= 1.0 && m <= n && x >= 0.0
    ensures Limit(t, m, x) <= Limit(t, n, x)
  {
    var d := n - m;
    PowerAtLeastOne(t, m);
    PowerAtLeastOne(t, d);
    PowerAdd(t, m, d);
    Grow(Power(t, m), Power(t, d), x);
    assert Power(t, m + d) == Power(t, n);
  }

  /** A latency with the length of its explanation. */
  datatype Bound = Bound(value: real, size: nat) {
    function Chain(other: Bound): Bound {
      Bound(value + other.value, size + other.size)
    }

    function Iterate(iterations: nat): Bound {
      Bound(Times(value, iterations), size + 1)
    }

    /** Prefers larger values and, within the relative tolerance, shorter explanations. */
    predicate IsBetterThan(other: Bound, tolerance: real) {
      if value > tolerance * other.value then true
      else if tolerance * value < other.value then false
      else size < other.size
    }

    /** At least as good as `other`, with no tolerance. */
    predicate Dominates(other: Bound) {
      value > other.value || (value == other.value && size <= other.size)
    }
  }

  const ZERO := Bound(0.0, 1)

  /** Whichever of two bounds is preferred, it is at least the other one up to the tolerance. */
  lemma PreferredIsNear(x: Bound, y: Bound, tolerance: real)
    requires tolerance >= 1.0 && x.value >= 0.0 && y.value >= 0.0
    ensures x.IsBetterThan(y, tolerance) ==> y.value <= tolerance * x.value
    ensures !x.IsBetterThan(y, tolerance) ==> x.value <= tolerance * y.value
  {
    Larger(tolerance, x.value, y.value);
    Larger(tolerance, y.value, x.value);
  }

  lemma Larger(t: real, x: real, y: real)
    requires t >= 1.0 && x >= 0.0 && y >= 0.0
    ensures t * x < y ==> x <= t * y
  {
    Scale(x, 1.0, t);
    Scale(y, 1.0, t);
    var tx, ty := t * x, t * y;
    assert x <= tx && y <= ty;
  }

  /** For each node, the latency from each of its dependencies. */
  type Deps = seq<map<nat, Bound>>

  /** Nodes are sorted: dependencies come first. */
  ghost predicate Sorted(deps: Deps) {
    forall to, from :: 0 <= to < |deps| && from in deps[to] ==> from < to
  }

  ghost predicate NonNegative(deps: Deps) {
    forall to, from :: 0 <= to < |deps| && from in deps[to] ==> deps[to][from].value >= 0.0
  }

  /** A chain of dependencies. */
  datatype Path = Direct(from: nat, to: nat) | Via(from: nat, rest: Path) {
    function End(): nat {
      match this
      case Direct(_, to) => to
      case Via(_, rest) => rest.End()
    }

    /** The second node of the path. */
    function Next(): nat {
      match this
      case Direct(_, to) => to
      case Via(_, rest) => rest.from
    }

    ghost predicate Valid(deps: Deps) {
      && Next() < |deps|
      && from in deps[Next()]
      && (Via? ==> rest.Valid(deps))
    }

    /** The chained latency of the path. */
    ghost function Latency(deps: Deps): Bound
      requires Valid(deps)
    {
      var first := deps[Next()][from];
      match this
      case Direct(_, _) => first
      case Via(_, rest) => first.Chain(rest.Latency(deps))
    }
  }

  ghost predicate IsPath(deps: Deps, p: Path, from: nat, to: nat) {
    p.Valid(deps) && p.from == from && p.End() == to
  }

  ghost predicate Reaches(deps: Deps, from: nat, to: nat) {
    exists p :: IsPath(deps, p, from, to)
  }

  lemma {:induction false} PathNonNegative(deps: Deps, p: Path)
    requires p.Valid(deps) && NonNegative(deps)
    ensures p.Latency(deps).value >= 0.0
  {
    if p.Via? {
      PathNonNegative(deps, p.rest);
    }
  }

  /** No path from `from` whose second node is above `low` exceeds `value`. */
  ghost predicate Within(deps: Deps, to: nat, from: nat, low: int, value: real) {
    forall p :: IsPath(deps, p, from, to) && p.Next() > low ==> p.Latency(deps).value <= value
  }

  /** `lat` sums up the paths whose second node is above `low`. */
  ghost predicate Summary(deps: Deps, to: nat, from: nat, low: int, lat: Option<Bound>, tolerance: real) {
    Exact(deps, to, from, low, lat, tolerance) && Near(deps, to, from, low, lat, tolerance)
  }

  ghost predicate Exact(deps: Deps, to: nat, from: nat, low: int, lat: Option<Bound>, tolerance: real) {
    && (lat.None? ==> forall p :: IsPath(deps, p, from, to) ==> p.Next() <= low)
    && (lat.Some? ==> exists p :: IsPath(deps, p, from, to) && p.Next() > low && p.Latency(deps) == lat.value)
    && (lat.Some? && tolerance == 1.0 ==>
          forall p :: IsPath(deps, p, from, to) && p.Next() > low ==> lat.value.Dominates(p.Latency(deps)))
  }

  /** Every node passed on the way down costs at most one factor. */
  ghost predicate Near(deps: Deps, to: nat, from: nat, low: int, lat: Option<Bound>, tolerance: real) {
    lat.Some? && tolerance >= 1.0 && NonNegative(deps) && -1 <= low < to ==>
      Within(deps, to, from, low, Limit(tolerance, to - 1 - low, lat.value.value))
  }

  lemma {:induction false} PathIncreases(deps: Deps, p: Path)
    requires p.Valid(deps) && Sorted(deps)
    ensures p.from < p.Next() <= p.End() < |deps|
    ensures p.Via? ==> p.Next() < p.End()
  {
    if p.Via? {
      PathIncreases(deps, p.rest);
    }
  }

  /** Node `i` offers nothing more: it is unreachable or does not depend on `from`. */
  lemma SummarySkip(deps: Deps, to: nat, from: nat, i: nat, lat: Option<Bound>, latI: Option<Bound>, tolerance: real)
    requires Sorted(deps) && i < to < |deps|
    requires Summary(deps, to, from, i, lat, tolerance)
    requires from !in deps[i] || (latI.None? && Summary(deps, to, i, i, latI, tolerance))
    ensures Summary(deps, to, from, i - 1, lat, tolerance)
  {
    forall p | IsPath(deps, p, from, to) ensures p.Next() != i {
      PathIncreases(deps, p);
      if p.Next() == i {
        PathIncreases(deps, p.rest);
        assert IsPath(deps, p.rest, i, to);
      }
    }
    NearSkip(deps, to, from, i, lat, tolerance);
  }

  lemma NearSkip(deps: Deps, to: nat, from: nat, i: nat, lat: Option<Bound>, tolerance: real)
    requires i < to < |deps| && Summary(deps, to, from, i, lat, tolerance)
    requires forall p :: IsPath(deps, p, from, to) ==> p.Next() != i
    ensures Near(deps, to, from, i - 1, lat, tolerance)
  {
    if lat.Some? && tolerance >= 1.0 && NonNegative(deps) {
      ValueNonNegative(deps, to, from, i, lat, tolerance);
      PowerMonotone(tolerance, to - 1 - i, to - i, lat.value.value);
      WithinSkip(deps, to, from, i, Limit(tolerance, to - 1 - i, lat.value.value), Limit(tolerance, to - i, lat.value.value));
    }
  }

  lemma WithinSkip(deps: Deps, to: nat, from: nat, i: nat, x: real, y: real)
    requires Within(deps, to, from, i, x) && x <= y && forall p :: IsPath(deps, p, from, to) ==> p.Next() != i
    ensures Within(deps, to, from, i - 1, y)
  {
  }

  lemma ValueNonNegative(deps: Deps, to: nat, from: nat, low: int, lat: Option<Bound>, tolerance: real)
    requires Exact(deps, to, from, low, lat, tolerance) && lat.Some? && NonNegative(deps)
    ensures lat.value.value >= 0.0
  {
    var p :| IsPath(deps, p, from, to) && p.Next() > low && p.Latency(deps) == lat.value;
    PathNonNegative(deps, p);
  }

  /** A bound on the rest of a path gives one on the path. */
  lemma Prefixed(d: real, r: real, l: real, p: real)
    requires d >= 0.0 && p >= 1.0 && r <= p * l
    ensures d + r <= p * (d + l)
  {
    Scale(d, 1.0, p);
  }

  /** One more comparison costs at most one factor. */
  lemma OneMoreFactor(t: real, n: nat, m: nat, v: real, x: real, best: real)
    requires t >= 1.0 && v <= Limit(t, n, x) && x <= t * best && m == n + 1
    ensures v <= Limit(t, m, best)
  {
    PowerAtLeastOne(t, n);
    Scale(Power(t, n), x, t * best);
    Assoc(Power(t, n), t, best);
  }

  /** The latency preferred between the known one and the one through node `i`. */
  function Preferred(known: Option<Bound>, through: Bound, tolerance: real): Bound {
    if known.None? || through.IsBetterThan(known.value, tolerance) then through else known.value
  }

  /** The paths through node `i`, and those known before, stay within one more factor of the preferred latency. */
  lemma NearThrough(deps: Deps, to: nat, from: nat, i: nat, known: Option<Bound>, latI: Bound, best: Bound, tolerance: real)
    requires Sorted(deps) && i < to < |deps| && from in deps[i]
    requires Summary(deps, to, from, i, known, tolerance) && Summary(deps, to, i, i, Some(latI), tolerance)
    requires best == Preferred(known, deps[i][from].Chain(latI), tolerance)
    ensures Near(deps, to, from, i - 1, Some(best), tolerance)
  {
    if tolerance >= 1.0 && NonNegative(deps) {
      forall p | IsPath(deps, p, from, to) && p.Next() > i - 1
        ensures p.Latency(deps).value <= Limit(tolerance, to - i, best.value)
      {
        PathNear(deps, to, from, i, known, latI, best, p, tolerance);
      }
    }
  }

  lemma PathNear(deps: Deps, to: nat, from: nat, i: nat, known: Option<Bound>, latI: Bound, best: Bound, p: Path, tolerance: real)
    requires Sorted(deps) && i < to < |deps| && from in deps[i] && tolerance >= 1.0 && NonNegative(deps)
    requires Summary(deps, to, from, i, known, tolerance) && Summary(deps, to, i, i, Some(latI), tolerance)
    requires best == Preferred(known, deps[i][from].Chain(latI), tolerance)
    requires IsPath(deps, p, from, to) && p.Next() > i - 1
    ensures p.Latency(deps).value <= Limit(tolerance, to - i, best.value)
  {
    var x := PathFactor(deps, to, from, i, known, latI, p, tolerance);
    FactorNear(deps, to, from, i, known, latI, best, x, tolerance);
    FactorsAdd(deps, p, tolerance, to - 1 - i, to - i, x, best.value);
  }

  lemma FactorNear(deps: Deps, to: nat, from: nat, i: nat, known: Option<Bound>, latI: Bound, best: Bound, x: real, tolerance: real)
    requires i < to < |deps| && from in deps[i] && tolerance >= 1.0 && NonNegative(deps)
    requires Exact(deps, to, from, i, known, tolerance) && Exact(deps, to, i, i, Some(latI), tolerance)
    requires best == Preferred(known, deps[i][from].Chain(latI), tolerance)
    requires x == deps[i][from].value + latI.value || (known.Some? && x == known.value.value)
    ensures x <= tolerance * best.value
  {
    ThroughNear(deps, to, from, i, known, latI, best, tolerance);
  }

  lemma ThroughNear(deps: Deps, to: nat, from: nat, i: nat, known: Option<Bound>, latI: Bound, best: Bound, tolerance: real)
    requires i < to < |deps| && from in deps[i] && tolerance >= 1.0 && NonNegative(deps)
    requires Exact(deps, to, from, i, known, tolerance) && Exact(deps, to, i, i, Some(latI), tolerance)
    requires best == Preferred(known, deps[i][from].Chain(latI), tolerance)
    ensures deps[i][from].value + latI.value <= tolerance * best.value
    ensures known.Some? ==> known.value.value <= tolerance * best.value
  {
    ValueNonNegative(deps, to, i, i, Some(latI), tolerance);
    if known.Some? {
      ValueNonNegative(deps, to, from, i, known, tolerance);
    }
    BestIsNear(deps[i][from].Chain(latI), known, best, tolerance);
  }

  lemma PathFactor(deps: Deps, to: nat, from: nat, i: nat, known: Option<Bound>, latI: Bound, p: Path, tolerance: real) returns (x: real)
    requires Sorted(deps) && i < to < |deps| && from in deps[i] && tolerance >= 1.0 && NonNegative(deps)
    requires Summary(deps, to, from, i, known, tolerance) && Near(deps, to, i, i, Some(latI), tolerance)
    requires IsPath(deps, p, from, to) && p.Next() > i - 1
    ensures p.Latency(deps).value <= Limit(tolerance, to - 1 - i, x)
    ensures x == deps[i][from].value + latI.value || (known.Some? && x == known.value.value)
  {
    if p.Next() == i {
      PathThrough(deps, to, from, i, latI, p, tolerance);
      x := deps[i][from].value + latI.value;
    } else {
      KnownNear(deps, to, from, i, known, p, tolerance);
      x := known.value.value;
    }
  }

  /** A path within `n` factors of `x`, itself within one of `best`. */
  lemma FactorsAdd(deps: Deps, p: Path, tolerance: real, n: nat, m: nat, x: real, best: real)
    requires p.Valid(deps) && tolerance >= 1.0 && p.Latency(deps).value <= Limit(tolerance, n, x) && x <= tolerance * best && m == n + 1
    ensures p.Latency(deps).value <= Limit(tolerance, m, best)
  {
    OneMoreFactor(tolerance, n, m, p.Latency(deps).value, x, best);
  }

  lemma KnownNear(deps: Deps, to: nat, from: nat, i: nat, known: Option<Bound>, p: Path, tolerance: real)
    requires i < to && Summary(deps, to, from, i, known, tolerance) && tolerance >= 1.0 && NonNegative(deps)
    requires IsPath(deps, p, from, to) && p.Next() > i
    ensures known.Some? && p.Latency(deps).value <= Limit(tolerance, to - 1 - i, known.value.value)
  {
  }

  lemma BestIsNear(through: Bound, known: Option<Bound>, best: Bound, tolerance: real)
    requires tolerance >= 1.0 && through.value >= 0.0 && (known.Some? ==> known.value.value >= 0.0)
    requires best == Preferred(known, through, tolerance)
    ensures through.value <= tolerance * best.value && (known.Some? ==> known.value.value <= tolerance * best.value)
  {
    Scale(through.value, 1.0, tolerance);
    if known.Some? {
      Scale(known.value.value, 1.0, tolerance);
      PreferredIsNear(through, known.value, tolerance);
    }
  }

  lemma PathThrough(deps: Deps, to: nat, from: nat, i: nat, latI: Bound, p: Path, tolerance: real)
    requires Sorted(deps) && i < to < |deps| && from in deps[i] && tolerance >= 1.0 && NonNegative(deps)
    requires Near(deps, to, i, i, Some(latI), tolerance) && IsPath(deps, p, from, to) && p.Next() == i
    ensures p.Latency(deps).value <= Limit(tolerance, to - 1 - i, deps[i][from].value + latI.value)
  {
    PathIncreases(deps, p);
    PathIncreases(deps, p.rest);
    assert IsPath(deps, p.rest, i, to);
    PowerAtLeastOne(tolerance, to - 1 - i);
    Prefixed(deps[i][from].value, p.rest.Latency(deps).value, latI.value, Power(tolerance, to - 1 - i));
  }

  /** The better of the known latency and the latency through node `i`. */
  lemma SummaryThrough(deps: Deps, to: nat, from: nat, i: nat, known: Option<Bound>, latI: Bound, tolerance: real)
    requires Sorted(deps) && i < to < |deps| && from in deps[i]
    requires Summary(deps, to, from, i, known, tolerance)
    requires Summary(deps, to, i, i, Some(latI), tolerance)
    ensures Summary(deps, to, from, i - 1, Some(Preferred(known, deps[i][from].Chain(latI), tolerance)), tolerance)
  {
    var best := Preferred(known, deps[i][from].Chain(latI), tolerance);
    ExactThrough(deps, to, from, i, known, latI, best, tolerance);
    NearThrough(deps, to, from, i, known, latI, best, tolerance);
  }

  lemma ExactThrough(deps: Deps, to: nat, from: nat, i: nat, known: Option<Bound>, latI: Bound, best: Bound, tolerance: real)
    requires Sorted(deps) && i < to < |deps| && from in deps[i]
    requires Exact(deps, to, from, i, known, tolerance) && Exact(deps, to, i, i, Some(latI), tolerance)
    requires best == Preferred(known, deps[i][from].Chain(latI), tolerance)
    ensures Exact(deps, to, from, i - 1, Some(best), tolerance)
  {
    var q :| IsPath(deps, q, i, to) && q.Next() > i && q.Latency(deps) == latI;
    var viaQ := Via(from, q);
    assert IsPath(deps, viaQ, from, to) && viaQ.Next() == i && viaQ.Latency(deps) == deps[i][from].Chain(latI);
    if tolerance == 1.0 {
      forall p | IsPath(deps, p, from, to) && p.Next() > i - 1 ensures best.Dominates(p.Latency(deps)) {
        if p.Next() == i {
          PathIncreases(deps, p.rest);
          assert IsPath(deps, p.rest, i, to) && latI.Dominates(p.rest.Latency(deps));
        } else {
          assert known.value.Dominates(p.Latency(deps));
        }
      }
    }
  }

  /** Paths of a single dependency. */
  lemma DirectSummary(deps: Deps, to: nat, from: nat, lat: Option<Bound>, tolerance: real)
    requires Sorted(deps) && to < |deps|
    requires lat == if from in deps[to] then Some(deps[to][from]) else None
    ensures Summary(deps, to, from, to - 1, lat, tolerance)
  {
    forall p | IsPath(deps, p, from, to) && p.Next() > to - 1 ensures p == Direct(from, to) {
      PathIncreases(deps, p);
    }
    if from in deps[to] {
      assert IsPath(deps, Direct(from, to), from, to);
    }
  }

  function SetLatency(m: map<nat, Bound>, from: nat, latency: Bound): map<nat, Bound> {
    m[from := latency]
  }

  /** A dependency map with one more candidate for the latency from `from` to `to`. */
  function WithDep(deps: Deps, from: nat, to: nat, latency: Bound, tolerance: real): (r: Deps)
    requires to < |deps|
    ensures |r| == |deps|
  {
    if from in deps[to] && !latency.IsBetterThan(deps[to][from], tolerance) then deps
    else deps[to := SetLatency(deps[to], from, latency)]
  }

  /**
   Only one entry changes. It is one of the old and the offered one, and both are at most it up
   to the tolerance.
   */
  ghost predicate Kept(before: Deps, after: Deps, from: nat, to: nat, latency: Bound, tolerance: real) {
    && to < |before| == |after|
    && (forall j, k :: 0 <= j < |before| && (j != to || k != from) && k in before[j] ==>
          k in after[j] && after[j][k] == before[j][k])
    && (forall j, k :: 0 <= j < |before| && (j != to || k != from) && k in after[j] ==> k in before[j])
    && from in after[to] && (after[to][from] == latency || (from in before[to] && after[to][from] == before[to][from]))
    && (tolerance >= 1.0 && latency.value >= 0.0 && NonNegative(before) ==> NearEntry(before, after, from, to, latency, tolerance))
  }

  ghost predicate NearEntry(before: Deps, after: Deps, from: nat, to: nat, latency: Bound, tolerance: real)
    requires to < |before| == |after| && from in after[to]
  {
    && NonNegative(after)
    && latency.value <= tolerance * after[to][from].value
    && (from in before[to] ==> before[to][from].value <= tolerance * after[to][from].value)
  }

  lemma DepKept(deps: Deps, from: nat, to: nat, latency: Bound, tolerance: real)
    requires to < |deps|
    ensures Kept(deps, WithDep(deps, from, to, latency, tolerance), from, to, latency, tolerance)
  {
    if tolerance >= 1.0 && latency.value >= 0.0 && NonNegative(deps) {
      Scale(latency.value, 1.0, tolerance);
      if from in deps[to] {
        Scale(deps[to][from].value, 1.0, tolerance);
        PreferredIsNear(latency, deps[to][from], tolerance);
      }
    }
  }

  /** The paths through node `i` are taken into account, except those from `todo`. */
  ghost predicate Relaxing(
      deps: Deps, to: nat, i: nat, todo: set<nat>, latencies: seq<Option<Bound>>, relaxed: seq<Option<Bound>>, tolerance: real)
  {
    && i < to < |deps| && |latencies| == |relaxed| == to && todo <= deps[i].Keys
    && (forall k :: 0 <= k < to && (k !in deps[i] || k in todo) ==> Summary(deps, to, k, i, relaxed[k], tolerance))
    && (forall k :: 0 <= k < to && k in deps[i] && k !in todo ==> Summary(deps, to, k, i - 1, relaxed[k], tolerance))
    && (forall k :: i <= k < to ==> relaxed[k] == latencies[k])
  }

  lemma RelaxStep(
      deps: Deps, to: nat, i: nat, todo: set<nat>, pred: nat, latencies: seq<Option<Bound>>, relaxed: seq<Option<Bound>>,
      latToDest: Bound, tolerance: real)
    requires Sorted(deps) && Relaxing(deps, to, i, todo, latencies, relaxed, tolerance) && pred in todo
    requires latencies[i] == Some(latToDest)
    ensures pred < i
    ensures
      var best := Preferred(relaxed[pred], deps[i][pred].Chain(latToDest), tolerance);
      Relaxing(deps, to, i, todo - {pred}, latencies, relaxed[pred := Some(best)], tolerance)
  {
    assert Summary(deps, to, i, i, relaxed[i], tolerance);
    SummaryThrough(deps, to, pred, i, relaxed[pred], latToDest, tolerance);
  }

  class DependencyMap {
    var deps: Deps

    constructor (size: nat)
      ensures deps == seq(size, i => map[]) && Sorted(deps)
    {
      deps := seq(size, i => map[]);
    }

    method AddDep(from: nat, to: nat, latency: Bound, tolerance: real)
      requires from < to < |deps|
      modifies this
      ensures deps == WithDep(old(deps), from, to, latency, tolerance)
      ensures old(Sorted(deps)) ==> Sorted(deps)
      ensures Kept(old(deps), deps, from, to, latency, tolerance)
    {
      DepKept(deps, from, to, latency, tolerance);
      if from !in deps[to] {
        deps := deps[to := SetLatency(deps[to], from, latency)];
      } else if latency.IsBetterThan(deps[to][from], tolerance) {
        deps := deps[to := SetLatency(deps[to], from, latency)];
      }
    }

    /**
     The latency from every earlier node to `to`: absent exactly when there is no dependency
     path, otherwise the latency of a real path. No path is longer by more than one factor of the
     tolerance per node between; without tolerance none is longer, and none of the longest ones
     has a shorter explanation.
     */
    method LatencyTo(to: nat, tolerance: real) returns (latencies: seq<Option<Bound>>)
      requires Sorted(deps) && to < |deps|
      ensures |latencies| == to
      ensures forall from :: 0 <= from < to ==> (latencies[from].None? <==> !Reaches(deps, from, to))
      ensures forall from :: 0 <= from < to && latencies[from].Some? ==>
                exists p :: IsPath(deps, p, from, to) && p.Latency(deps) == latencies[from].value
      ensures tolerance == 1.0 ==> forall from, p :: 0 <= from < to && IsPath(deps, p, from, to) ==>
                latencies[from].Some? && latencies[from].value.Dominates(p.Latency(deps))
      ensures tolerance >= 1.0 && NonNegative(deps) ==> forall from, p :: 0 <= from < to && IsPath(deps, p, from, to) ==>
                latencies[from].Some? &&
                p.Latency(deps).value <= Limit(tolerance, to - 1 - from, latencies[from].value.value)
    {
      latencies := seq(to, _ => None);
      var preds := deps[to].Keys;
      while preds != {}
        invariant preds <= deps[to].Keys && |latencies| == to
        invariant forall k :: 0 <= k < to ==>
                    latencies[k] == if k in deps[to] && k !in preds then Some(deps[to][k]) else None
        decreases preds
      {
        var pred :| pred in preds;
        latencies := latencies[pred := Some(deps[to][pred])];
        preds := preds - {pred};
      }
      forall k | 0 <= k < to ensures Summary(deps, to, k, to - 1, latencies[k], tolerance) {
        DirectSummary(deps, to, k, latencies[k], tolerance);
      }
      var i := to;
      while i > 0
        invariant 0 <= i <= to && |latencies| == to
        invariant forall k :: 0 <= k < to ==> Summary(deps, to, k, i - 1, latencies[k], tolerance)
        invariant forall k :: i <= k < to ==> Summary(deps, to, k, k, latencies[k], tolerance)
      {
        i := i - 1;
        match latencies[i]
        case None =>
          forall k | 0 <= k < to ensures Summary(deps, to, k, i - 1, latencies[k], tolerance) {
            SummarySkip(deps, to, k, i, latencies[k], None, tolerance);
          }
        case Some(latToDest) =>
          latencies := Relax(to, i, latToDest, latencies, tolerance);
      }
      forall from | 0 <= from < to ensures Summary(deps, to, from, -1, latencies[from], tolerance) {
      }
      if tolerance >= 1.0 && NonNegative(deps) {
        forall from, p | 0 <= from < to && IsPath(deps, p, from, to)
          ensures latencies[from].Some? && p.Latency(deps).value <= Limit(tolerance, to - 1 - from, latencies[from].value.value)
        {
          PathIncreases(deps, p);
          KnownNear(deps, to, from, from, latencies[from], p, tolerance);
        }
      }
    }

    /** Takes the paths through node `i` into account. */
    method Relax(to: nat, i: nat, latToDest: Bound, latencies: seq<Option<Bound>>, tolerance: real)
      returns (relaxed: seq<Option<Bound>>)
      requires Sorted(deps) && i < to < |deps| && |latencies| == to && latencies[i] == Some(latToDest)
      requires forall k :: 0 <= k < to ==> Summary(deps, to, k, i, latencies[k], tolerance)
      ensures |relaxed| == to
      ensures forall k :: 0 <= k < to ==> Summary(deps, to, k, i - 1, relaxed[k], tolerance)
      ensures forall k :: i <= k < to ==> relaxed[k] == latencies[k]
    {
      relaxed := latencies;
      var todo := deps[i].Keys;
      while todo != {}
        invariant Relaxing(deps, to, i, todo, latencies, relaxed, tolerance)
        decreases todo
      {
        var pred :| pred in todo;
        var newLat := deps[i][pred].Chain(latToDest);
        RelaxStep(deps, to, i, todo, pred, latencies, relaxed, latToDest, tolerance);
        if relaxed[pred].None? || newLat.IsBetterThan(relaxed[pred].value, tolerance) {
          relaxed := relaxed[pred := Some(newLat)];
        }
        todo := todo - {pred};
      }
      forall k | 0 <= k < to ensures Summary(deps, to, k, i - 1, relaxed[k], tolerance) {
        if k !in deps[i] {
          SummarySkip(deps, to, k, i, relaxed[k], None, tolerance);
        }
      }
    }
  }
}
