/** The order in which a loop nest executes its instructions. */
module LoopOrder {
  import opened Wrappers
  import opened InductionVars
  import opened LoopCode
  import opened LoopMeaning
  import MixedRadix

  // ----- Nested loops that test their index first -----

  function NestedTrace(fun: Function, vals: Vals, c: Cfg, ctx: Ctx): seq<RefEvent>
    requires fun.Printable(c)
    decreases c, 0
  {
    match c
    case Root(body) => NestedBody(fun, vals, body, ctx)
    case Loop(g, body) =>
      var size := SizeOf(vals, fun.space.dims[g].size);
      NestedIterations(fun, vals, g, body, ctx, if size < 0 then 0 else size)
    case Threads(active, body) => NestedBody(fun, vals, body, EnterThreads(fun, active, ctx)) + [RefBarrier]
    case Inst(id) => [Did(id, ctx)]
  }

  function NestedBody(fun: Function, vals: Vals, body: seq<Cfg>, ctx: Ctx): seq<RefEvent>
    requires forall k :: 0 <= k < |body| ==> fun.Printable(body[k])
    decreases body, 0
  {
    if body == [] then []
    else NestedBody(fun, vals, body[..|body| - 1], ctx) + NestedTrace(fun, vals, body[|body| - 1], ctx)
  }

  function NestedIterations(fun: Function, vals: Vals, g: nat, body: seq<Cfg>, ctx: Ctx, n: nat): seq<RefEvent>
    requires forall k :: 0 <= k < |body| ==> fun.Printable(body[k])
    decreases body, n + 1
  {
    if n == 0 then []
    else NestedIterations(fun, vals, g, body, ctx, n - 1) + NestedBody(fun, vals, body, EnterLoop(ctx, g, n - 1))
  }

  /** Every loop with a jump that is reached has an index to run for. */
  ghost predicate SizesPositive(fun: Function, vals: Vals, c: Cfg)
    requires fun.Printable(c)
  {
    match c
    case Root(body) => forall k :: 0 <= k < |body| ==> SizesPositive(fun, vals, body[k])
    case Loop(g, body) =>
      if SizeOf(vals, fun.space.dims[g].size) < 1 then fun.space.dims[g].kind.Unroll?
      else forall k :: 0 <= k < |body| ==> SizesPositive(fun, vals, body[k])
    case Threads(_, body) => forall k :: 0 <= k < |body| ==> SizesPositive(fun, vals, body[k])
    case Inst(_) => true
  }

  /** The piece of code executes something, however its loops are sized. */
  ghost predicate Busy(fun: Function, c: Cfg)
    requires fun.Printable(c)
  {
    match c
    case Root(body) => exists k :: 0 <= k < |body| && Busy(fun, body[k])
    case Loop(g, body) => fun.space.dims[g].kind.Loop? && exists k :: 0 <= k < |body| && Busy(fun, body[k])
    case Threads(_, _) => true
    case Inst(_) => true
  }

  /** No loop with a jump runs an empty body. */
  ghost predicate LoopsBusy(fun: Function, c: Cfg)
    requires fun.Printable(c)
  {
    match c
    case Root(body) => forall k :: 0 <= k < |body| ==> LoopsBusy(fun, body[k])
    case Loop(g, body) =>
      && (fun.space.dims[g].kind.Loop? ==> exists k :: 0 <= k < |body| && Busy(fun, body[k]))
      && forall k :: 0 <= k < |body| ==> LoopsBusy(fun, body[k])
    case Threads(_, body) => forall k :: 0 <= k < |body| ==> LoopsBusy(fun, body[k])
    case Inst(_) => true
  }

  // ----- The code runs every loop at least once -----

  lemma {:induction false} BusyTrace(fun: Function, vals: Vals, c: Cfg, ctx: Ctx)
    requires fun.Printable(c) && Busy(fun, c)
    ensures |RefTrace(fun, vals, c, ctx)| > 0
    decreases c, 0
  {
    match c
    case Root(body) => BusyBody(fun, vals, body, ctx);
    case Loop(g, body) =>
      var n := Rounds(vals, fun.space.dims[g]);
      BusyBody(fun, vals, body, EnterLoop(ctx, g, n - 1));
    case Threads(_, _) =>
    case Inst(_) =>
  }

  lemma {:induction false} BusyBody(fun: Function, vals: Vals, body: seq<Cfg>, ctx: Ctx)
    requires (forall k :: 0 <= k < |body| ==> fun.Printable(body[k])) && exists k :: 0 <= k < |body| && Busy(fun, body[k])
    ensures |RefBody(fun, vals, body, ctx)| > 0
    decreases body, 0
  {
    var n := |body| - 1;
    if Busy(fun, body[n]) {
      BusyTrace(fun, vals, body[n], ctx);
    } else {
      var k :| 0 <= k < |body| && Busy(fun, body[k]);
      assert body[..n][k] == body[k];
      BusyBody(fun, vals, body[..n], ctx);
    }
  }

  ghost predicate BodyPositive(fun: Function, vals: Vals, body: seq<Cfg>)
    requires forall k :: 0 <= k < |body| ==> fun.Printable(body[k])
  {
    forall k :: 0 <= k < |body| ==> SizesPositive(fun, vals, body[k])
  }

  /** Two traces agree when sizes are positive, and the code does strictly more when they are not. */
  ghost predicate Compares(positive: bool, run: seq<RefEvent>, nested: seq<RefEvent>) {
    if positive then run == nested else |run| > |nested|
  }

  lemma {:induction false} CompareCfg(fun: Function, vals: Vals, c: Cfg, ctx: Ctx)
    requires fun.Printable(c) && LoopsBusy(fun, c)
    ensures Compares(SizesPositive(fun, vals, c), RefTrace(fun, vals, c, ctx), NestedTrace(fun, vals, c, ctx))
    decreases c, 0
  {
    match c
    case Root(body) => CompareBody(fun, vals, body, ctx);
    case Loop(g, body) =>
      var size := SizeOf(vals, fun.space.dims[g].size);
      if size >= 1 {
        CompareIterations(fun, vals, g, body, ctx, size);
      } else if fun.space.dims[g].kind.Loop? {
        BusyBody(fun, vals, body, EnterLoop(ctx, g, 0));
        assert RefIterations(fun, vals, g, body, ctx, 1) == RefIterations(fun, vals, g, body, ctx, 0) + RefBody(fun, vals, body, EnterLoop(ctx, g, 0));
      }
    case Threads(active, body) => CompareBody(fun, vals, body, EnterThreads(fun, active, ctx));
    case Inst(_) =>
  }

  lemma {:induction false} CompareBody(fun: Function, vals: Vals, body: seq<Cfg>, ctx: Ctx)
    requires forall k :: 0 <= k < |body| ==> fun.Printable(body[k]) && LoopsBusy(fun, body[k])
    ensures Compares(BodyPositive(fun, vals, body), RefBody(fun, vals, body, ctx), NestedBody(fun, vals, body, ctx))
    decreases body, 0
  {
    if body != [] {
      var n := |body| - 1;
      CompareBody(fun, vals, body[..n], ctx);
      CompareCfg(fun, vals, body[n], ctx);
      assert BodyPositive(fun, vals, body) <==> BodyPositive(fun, vals, body[..n]) && SizesPositive(fun, vals, body[n]) by {
        if BodyPositive(fun, vals, body[..n]) && SizesPositive(fun, vals, body[n]) {
          assert forall k :: 0 <= k < n ==> SizesPositive(fun, vals, body[..n][k]);
        }
      }
    }
  }

  lemma {:induction false} CompareIterations(fun: Function, vals: Vals, g: nat, body: seq<Cfg>, ctx: Ctx, n: nat)
    requires forall k :: 0 <= k < |body| ==> fun.Printable(body[k]) && LoopsBusy(fun, body[k])
    ensures
      Compares(BodyPositive(fun, vals, body) || n == 0, RefIterations(fun, vals, g, body, ctx, n), NestedIterations(fun, vals, g, body, ctx, n))
    decreases body, n + 1
  {
    if n > 0 {
      CompareIterations(fun, vals, g, body, ctx, n - 1);
      CompareBody(fun, vals, body, EnterLoop(ctx, g, n - 1));
    }
  }

  /** The code runs its loops as nested loops do if and only if every loop with a jump has a positive size. */
  lemma NestedIffSizesPositive(fun: Function, vals: Vals, c: Cfg, ctx: Ctx)
    requires fun.Printable(c) && LoopsBusy(fun, c)
    ensures RefTrace(fun, vals, c, ctx) == NestedTrace(fun, vals, c, ctx) <==> SizesPositive(fun, vals, c)
  {
    CompareCfg(fun, vals, c, ctx);
  }

  // ----- Every tuple of indexes once, in lexicographic order -----

  /** The contexts in which an instruction is executed, in order. */
  function Visits(ref: seq<RefEvent>, id: nat): seq<Ctx> {
    if ref == [] then []
    else
      var rest := Visits(ref[..|ref| - 1], id);
      match ref[|ref| - 1]
      case RefBarrier => rest
      case Did(inst, ctx) => if inst == id then rest + [ctx] else rest
  }

  lemma {:induction false} VisitsConcat(a: seq<RefEvent>, b: seq<RefEvent>, id: nat)
    ensures Visits(a + b, id) == Visits(a, id) + Visits(b, id)
  {
    if b == [] {
      assert a + b == a;
    } else {
      var n := |b| - 1;
      assert (a + b)[..|a| + n] == a + b[..n];
      VisitsConcat(a, b[..n], id);
    }
  }

  datatype Enclosing = InLoop(g: nat) | InThreads(active: seq<Option<nat>>)

  function Occurrences(c: Cfg, id: nat): nat
    decreases c, 0
  {
    match c
    case Root(body) => OccurrencesIn(body, id)
    case Loop(_, body) => OccurrencesIn(body, id)
    case Threads(_, body) => OccurrencesIn(body, id)
    case Inst(inst) => if inst == id then 1 else 0
  }

  function OccurrencesIn(body: seq<Cfg>, id: nat): nat
    decreases body, 0
  {
    if body == [] then 0 else OccurrencesIn(body[..|body| - 1], id) + Occurrences(body[|body| - 1], id)
  }

  /** What encloses an instruction, from the outside in. */
  function PathTo(c: Cfg, id: nat): seq<Enclosing>
    decreases c, 0
  {
    match c
    case Root(body) => PathIn(body, id)
    case Loop(g, body) => [InLoop(g)] + PathIn(body, id)
    case Threads(active, body) => [InThreads(active)] + PathIn(body, id)
    case Inst(_) => []
  }

  function PathIn(body: seq<Cfg>, id: nat): seq<Enclosing>
    decreases body, 0
  {
    if body == [] then []
    else if Occurrences(body[|body| - 1], id) > 0 then PathTo(body[|body| - 1], id)
    else PathIn(body[..|body| - 1], id)
  }

  ghost predicate PathOk(fun: Function, path: seq<Enclosing>) {
    forall k :: 0 <= k < |path| && path[k].InLoop? ==> path[k].g < |fun.space.dims|
  }

  /** The contexts reached through a path, each loop running for each of its rounds. */
  function Reached(fun: Function, vals: Vals, path: seq<Enclosing>, ctx: Ctx): seq<Ctx>
    requires PathOk(fun, path)
    decreases |path|, 0
  {
    if path == [] then [ctx]
    else
      match path[0]
      case InThreads(active) => Reached(fun, vals, path[1..], EnterThreads(fun, active, ctx))
      case InLoop(g) => ReachedFrom(fun, vals, g, path[1..], ctx, Rounds(vals, fun.space.dims[g]))
  }

  function ReachedFrom(fun: Function, vals: Vals, g: nat, rest: seq<Enclosing>, ctx: Ctx, n: nat): seq<Ctx>
    requires PathOk(fun, rest)
    decreases |rest|, n + 1
  {
    if n == 0 then [] else ReachedFrom(fun, vals, g, rest, ctx, n - 1) + Reached(fun, vals, rest, EnterLoop(ctx, g, n - 1))
  }

  lemma {:induction false} NoVisit(fun: Function, vals: Vals, c: Cfg, ctx: Ctx, id: nat)
    requires fun.Printable(c) && Occurrences(c, id) == 0
    ensures Visits(RefTrace(fun, vals, c, ctx), id) == []
    decreases c, 0
  {
    match c
    case Root(body) => NoVisitIn(fun, vals, body, ctx, id);
    case Loop(g, body) => NoVisitFrom(fun, vals, g, body, ctx, id, Rounds(vals, fun.space.dims[g]));
    case Threads(active, body) =>
      NoVisitIn(fun, vals, body, EnterThreads(fun, active, ctx), id);
      VisitsConcat(RefBody(fun, vals, body, EnterThreads(fun, active, ctx)), [RefBarrier], id);
    case Inst(_) =>
  }

  lemma {:induction false} NoVisitIn(fun: Function, vals: Vals, body: seq<Cfg>, ctx: Ctx, id: nat)
    requires (forall k :: 0 <= k < |body| ==> fun.Printable(body[k])) && OccurrencesIn(body, id) == 0
    ensures Visits(RefBody(fun, vals, body, ctx), id) == []
    decreases body, 0
  {
    if body != [] {
      var n := |body| - 1;
      NoVisitIn(fun, vals, body[..n], ctx, id);
      NoVisit(fun, vals, body[n], ctx, id);
      VisitsConcat(RefBody(fun, vals, body[..n], ctx), RefTrace(fun, vals, body[n], ctx), id);
    }
  }

  lemma {:induction false} NoVisitFrom(fun: Function, vals: Vals, g: nat, body: seq<Cfg>, ctx: Ctx, id: nat, n: nat)
    requires (forall k :: 0 <= k < |body| ==> fun.Printable(body[k])) && OccurrencesIn(body, id) == 0
    ensures Visits(RefIterations(fun, vals, g, body, ctx, n), id) == []
    decreases body, n + 1
  {
    if n > 0 {
      NoVisitFrom(fun, vals, g, body, ctx, id, n - 1);
      NoVisitIn(fun, vals, body, EnterLoop(ctx, g, n - 1), id);
      LastRound(fun, vals, g, body, ctx, id, n);
    }
  }

  lemma {:induction false} PathIsOk(fun: Function, c: Cfg, id: nat)
    requires fun.Printable(c)
    ensures PathOk(fun, PathTo(c, id))
    decreases c, 0
  {
    match c
    case Root(body) => PathInOk(fun, body, id);
    case Loop(_, body) => PathInOk(fun, body, id);
    case Threads(_, body) => PathInOk(fun, body, id);
    case Inst(_) =>
  }

  lemma {:induction false} PathInOk(fun: Function, body: seq<Cfg>, id: nat)
    requires forall k :: 0 <= k < |body| ==> fun.Printable(body[k])
    ensures PathOk(fun, PathIn(body, id))
    decreases body, 0
  {
    if body != [] {
      PathIsOk(fun, body[|body| - 1], id);
      PathInOk(fun, body[..|body| - 1], id);
    }
  }

  /** An instruction that occurs once is executed in exactly the contexts its enclosing loops reach. */
  lemma {:induction false} VisitsAreReached(fun: Function, vals: Vals, c: Cfg, ctx: Ctx, id: nat)
    requires fun.Printable(c) && Occurrences(c, id) == 1
    ensures PathOk(fun, PathTo(c, id)) && Visits(RefTrace(fun, vals, c, ctx), id) == Reached(fun, vals, PathTo(c, id), ctx)
    decreases c, 0
  {
    PathIsOk(fun, c, id);
    match c
    case Root(body) => VisitsIn(fun, vals, body, ctx, id);
    case Loop(g, body) =>
      VisitsFrom(fun, vals, g, body, ctx, id, Rounds(vals, fun.space.dims[g]));
      assert PathTo(c, id)[1..] == PathIn(body, id);
    case Threads(active, body) =>
      VisitsIn(fun, vals, body, EnterThreads(fun, active, ctx), id);
      VisitsConcat(RefBody(fun, vals, body, EnterThreads(fun, active, ctx)), [RefBarrier], id);
      assert PathTo(c, id)[1..] == PathIn(body, id);
    case Inst(_) =>
  }

  lemma {:induction false} VisitsIn(fun: Function, vals: Vals, body: seq<Cfg>, ctx: Ctx, id: nat)
    requires (forall k :: 0 <= k < |body| ==> fun.Printable(body[k])) && OccurrencesIn(body, id) == 1
    ensures PathOk(fun, PathIn(body, id)) && Visits(RefBody(fun, vals, body, ctx), id) == Reached(fun, vals, PathIn(body, id), ctx)
    decreases body, 0
  {
    PathInOk(fun, body, id);
    var n := |body| - 1;
    var before, last := RefBody(fun, vals, body[..n], ctx), RefTrace(fun, vals, body[n], ctx);
    VisitsConcat(before, last, id);
    if Occurrences(body[n], id) > 0 {
      NoVisitIn(fun, vals, body[..n], ctx, id);
      VisitsAreReached(fun, vals, body[n], ctx, id);
    } else {
      VisitsIn(fun, vals, body[..n], ctx, id);
      NoVisit(fun, vals, body[n], ctx, id);
    }
  }

  lemma {:induction false} VisitsFrom(fun: Function, vals: Vals, g: nat, body: seq<Cfg>, ctx: Ctx, id: nat, n: nat)
    requires (forall k :: 0 <= k < |body| ==> fun.Printable(body[k])) && OccurrencesIn(body, id) == 1
    ensures PathOk(fun, PathIn(body, id))
    ensures Visits(RefIterations(fun, vals, g, body, ctx, n), id) == ReachedFrom(fun, vals, g, PathIn(body, id), ctx, n)
    decreases body, n + 1
  {
    PathInOk(fun, body, id);
    if n > 0 {
      VisitsFrom(fun, vals, g, body, ctx, id, n - 1);
      VisitsIn(fun, vals, body, EnterLoop(ctx, g, n - 1), id);
      LastRound(fun, vals, g, body, ctx, id, n);
    }
  }

  lemma LastRound(fun: Function, vals: Vals, g: nat, body: seq<Cfg>, ctx: Ctx, id: nat, n: nat)
    requires (forall k :: 0 <= k < |body| ==> fun.Printable(body[k])) && n > 0
    ensures Visits(RefIterations(fun, vals, g, body, ctx, n), id) ==
            Visits(RefIterations(fun, vals, g, body, ctx, n - 1), id) + Visits(RefBody(fun, vals, body, EnterLoop(ctx, g, n - 1)), id)
  {
    VisitsConcat(RefIterations(fun, vals, g, body, ctx, n - 1), RefBody(fun, vals, body, EnterLoop(ctx, g, n - 1)), id);
  }

  /** The number of rounds of the loops of a path, from the outside in. */
  function PathSizes(fun: Function, vals: Vals, path: seq<Enclosing>): seq<nat>
    requires PathOk(fun, path)
  {
    if path == [] then []
    else
      var rest := PathSizes(fun, vals, path[1..]);
      if path[0].InLoop? then [Rounds(vals, fun.space.dims[path[0].g])] + rest else rest
  }

  /** The context where the loops of a path have the given indexes. */
  function CtxAt(fun: Function, path: seq<Enclosing>, ctx: Ctx, indexes: seq<nat>): Ctx {
    if path == [] then ctx
    else
      match path[0]
      case InThreads(active) => CtxAt(fun, path[1..], EnterThreads(fun, active, ctx), indexes)
      case InLoop(g) =>
        if indexes == [] then ctx else CtxAt(fun, path[1..], EnterLoop(ctx, g, indexes[0]), indexes[1..])
  }

  lemma {:induction false} ReachedLength(fun: Function, vals: Vals, path: seq<Enclosing>, ctx: Ctx)
    requires PathOk(fun, path)
    ensures |Reached(fun, vals, path, ctx)| == MixedRadix.Product(PathSizes(fun, vals, path))
    decreases |path|, 0
  {
    if path != [] {
      match path[0]
      case InThreads(active) => ReachedLength(fun, vals, path[1..], EnterThreads(fun, active, ctx));
      case InLoop(g) =>
        var n := Rounds(vals, fun.space.dims[g]);
        ReachedFromLength(fun, vals, g, path[1..], ctx, n);
        assert PathSizes(fun, vals, path)[1..] == PathSizes(fun, vals, path[1..]);
    }
  }

  lemma {:induction false} ReachedFromLength(fun: Function, vals: Vals, g: nat, rest: seq<Enclosing>, ctx: Ctx, n: nat)
    requires PathOk(fun, rest)
    ensures |ReachedFrom(fun, vals, g, rest, ctx, n)| == n * MixedRadix.Product(PathSizes(fun, vals, rest))
    decreases |rest|, n + 1
  {
    if n > 0 {
      ReachedFromLength(fun, vals, g, rest, ctx, n - 1);
      ReachedLength(fun, vals, rest, EnterLoop(ctx, g, n - 1));
      var p := MixedRadix.Product(PathSizes(fun, vals, rest));
      assert (n - 1) * p + p == n * p;
    }
  }

  lemma {:induction false} ReachedFromPrefix(fun: Function, vals: Vals, g: nat, rest: seq<Enclosing>, ctx: Ctx, i: nat, n: nat, k: nat)
    requires PathOk(fun, rest) && i < n && k < MixedRadix.Product(PathSizes(fun, vals, rest))
    ensures
      var p := MixedRadix.Product(PathSizes(fun, vals, rest));
      && |Reached(fun, vals, rest, EnterLoop(ctx, g, i))| == p
      && i * p + k < |ReachedFrom(fun, vals, g, rest, ctx, n)|
      && ReachedFrom(fun, vals, g, rest, ctx, n)[i * p + k] == Reached(fun, vals, rest, EnterLoop(ctx, g, i))[k]
    decreases n
  {
    var p := MixedRadix.Product(PathSizes(fun, vals, rest));
    ReachedFromLength(fun, vals, g, rest, ctx, n - 1);
    ReachedLength(fun, vals, rest, EnterLoop(ctx, g, i));
    ReachedFromLength(fun, vals, g, rest, ctx, n);
    if i < n - 1 {
      ReachedFromPrefix(fun, vals, g, rest, ctx, i, n - 1, k);
    } else {
      assert (n - 1) * p == |ReachedFrom(fun, vals, g, rest, ctx, n - 1)|;
    }
  }

  /** The execution for a tuple of indexes comes at the position the tuple writes. */
  lemma {:induction false} ReachedAt(fun: Function, vals: Vals, path: seq<Enclosing>, ctx: Ctx, indexes: seq<nat>)
    requires PathOk(fun, path) && MixedRadix.Digits(PathSizes(fun, vals, path), indexes)
    ensures MixedRadix.Rank(PathSizes(fun, vals, path), indexes) < |Reached(fun, vals, path, ctx)|
    ensures Reached(fun, vals, path, ctx)[MixedRadix.Rank(PathSizes(fun, vals, path), indexes)] == CtxAt(fun, path, ctx, indexes)
    decreases |path|
  {
    MixedRadix.RankBound(PathSizes(fun, vals, path), indexes);
    ReachedLength(fun, vals, path, ctx);
    if path != [] {
      match path[0]
      case InThreads(active) => ReachedAt(fun, vals, path[1..], EnterThreads(fun, active, ctx), indexes);
      case InLoop(g) =>
        var sizes := PathSizes(fun, vals, path[1..]);
        assert PathSizes(fun, vals, path)[1..] == sizes;
        var inner := EnterLoop(ctx, g, indexes[0]);
        ReachedAt(fun, vals, path[1..], inner, indexes[1..]);
        MixedRadix.RankBound(sizes, indexes[1..]);
        ReachedFromPrefix(fun, vals, g, path[1..], ctx, indexes[0], Rounds(vals, fun.space.dims[g]), MixedRadix.Rank(sizes, indexes[1..]));
    }
  }

  /**
   An instruction that occurs once in the graph is executed once per tuple of indexes of the loops
   around it, in lexicographic order: the execution number `Rank(indexes)` has those indexes, and
   there are as many executions as tuples.
   */
  lemma LexicographicOrder(fun: Function, vals: Vals, c: Cfg, ctx: Ctx, id: nat, indexes: seq<nat>)
    requires fun.Printable(c) && Occurrences(c, id) == 1 && PathOk(fun, PathTo(c, id))
    requires MixedRadix.Digits(PathSizes(fun, vals, PathTo(c, id)), indexes)
    ensures
      var visits := Visits(RefTrace(fun, vals, c, ctx), id);
      var sizes := PathSizes(fun, vals, PathTo(c, id));
      && |visits| == MixedRadix.Product(sizes)
      && MixedRadix.Rank(sizes, indexes) < |visits|
      && visits[MixedRadix.Rank(sizes, indexes)] == CtxAt(fun, PathTo(c, id), ctx, indexes)
  {
    VisitsAreReached(fun, vals, c, ctx, id);
    ReachedLength(fun, vals, PathTo(c, id), ctx);
    ReachedAt(fun, vals, PathTo(c, id), ctx, indexes);
  }
}
