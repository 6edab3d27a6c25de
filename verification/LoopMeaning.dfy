/** What registers must hold at each point of a loop nest, and what running the nest means. */
module LoopMeaning {
  import opened Wrappers
  import opened InductionVars
  import opened InductionLevels
  import opened LoopCode
  import opened StraightCode

  /** The values of the kernel parameters and of the base operands. */
  datatype Vals = Vals(params: nat -> int, base: nat -> int)

  /** The indexes of the enclosing dimensions and the enclosing block of threads. */
  datatype Ctx = Ctx(env: map<nat, int>, active: set<nat>, inThreads: bool, effect: bool)

  function Idx(env: map<nat, int>, g: nat): int {
    if g in env then env[g] else 0
  }

  function SizeOf(vals: Vals, size: Size): int {
    match size
    case Const(n) => n
    case Sym(p) => vals.params(p)
  }

  /** What one dimension adds to a sum. */
  function Term(space: Space, vals: Vals, env: map<nat, int>, inc: Increment): int {
    Idx(env, space.Group(inc.dim)) * SizeOf(vals, inc.step)
  }

  /** The sum of index times increment. */
  function Sum(space: Space, vals: Vals, env: map<nat, int>, incs: seq<Increment>): int {
    if incs == [] then 0
    else Sum(space, vals, env, incs[..|incs| - 1]) + Term(space, vals, env, incs[|incs| - 1])
  }

  ghost predicate HasDim(incs: seq<Increment>, d: nat) {
    exists j :: 0 <= j < |incs| && incs[j].dim == d
  }

  function PrefixTo(incs: seq<Increment>, d: nat): seq<Increment> {
    if incs == [] || incs[|incs| - 1].dim == d then incs else PrefixTo(incs[..|incs| - 1], d)
  }

  /** The value of a register at a point where it is determined. */
  ghost function Expect(space: Space, vals: Vals, env: map<nat, int>, r: Reg): int {
    match r
    case Param(p) => vals.params(p)
    case Base(v) => vals.base(v)
    case Index(g) => Idx(env, g)
    case LevelOf(v, d) =>
      if v >= |space.vars| then 0
      else if HasDim(space.ConstLevels(v), d) then Sum(space, vals, env, PrefixTo(space.ConstLevels(v), d))
      else vals.base(v) + Sum(space, vals, env, space.ConstLevels(v)) + Sum(space, vals, env, PrefixTo(space.MutLevels(v), d))
    case Elsewhere(v) =>
      if v >= |space.vars| then 0 else vals.base(v) + Sum(space, vals, env, space.ConstLevels(v))
    case Tmp(_) => 0
  }

  ghost predicate Determined(space: Space, ctx: Ctx, r: Reg) {
    match r
    case Param(_) => true
    case Base(_) => true
    case Index(g) => g in ctx.env && !(g < |space.dims| && space.dims[g].kind.Unroll?)
    case LevelOf(v, d) =>
      v < |space.vars| && (HasDim(space.ConstLevels(v), d) || (HasDim(space.MutLevels(v), d) && space.Group(d) in ctx.env))
    case Elsewhere(v) => v < |space.vars| && Available(space, ctx, v)
    case Tmp(_) => false
  }

  /** The register of a variable with a level of its own was computed. */
  predicate Available(space: Space, ctx: Ctx, v: nat)
    requires v < |space.vars|
  {
    && ComputedElsewhere(space, v)
    && var last := LastDim(space.ConstLevels(v)).value;
       space.KindOf(last).Block? || last in ctx.active
  }

  ghost predicate RegInv(space: Space, vals: Vals, ctx: Ctx, regs: Regs) {
    forall r :: Determined(space, ctx, r) ==> Get(regs, r) == Expect(space, vals, ctx.env, r)
  }

  /** The loops entered so far include every loop around them. */
  ghost predicate Closed(space: Space, keys: set<nat>) {
    forall p :: p in space.outer && space.IsMut(p.0) && space.IsMut(p.1) && space.Group(p.1) in keys ==>
      space.Group(p.0) in keys
  }

  ghost predicate CtxOk(space: Space, ctx: Ctx) {
    && Closed(space, ctx.env.Keys)
    && forall g :: 0 <= g < |space.dims| && (space.dims[g].kind.Block? || space.dims[g].kind.Thread?) ==> g in ctx.env
  }

  // ----- The meaning of a loop nest -----

  datatype RefEvent = Did(inst: nat, ctx: Ctx) | RefBarrier

  function EnterThreads(fun: Function, active: seq<Option<nat>>, ctx: Ctx): Ctx {
    ctx.(active := (set d | d in fun.ActiveIds(active)),
         inThreads := true,
         effect := forall k :: 0 <= k < |active| && k < |fun.threadDims| && active[k].None? ==> Idx(ctx.env, fun.threadDims[k]) == 0)
  }

  function EnterLoop(ctx: Ctx, g: nat, i: int): Ctx {
    ctx.(env := ctx.env[g := i])
  }

  /** How often the body of a loop runs: a loop with a jump tests its index after the body. */
  function Rounds(vals: Vals, dim: Dimension): (n: nat)
    ensures dim.kind.Loop? ==> n >= 1
    ensures SizeOf(vals, dim.size) >= 1 ==> n == SizeOf(vals, dim.size)
  {
    var size := SizeOf(vals, dim.size);
    if size >= 1 then size else if dim.kind.Loop? then 1 else 0
  }

  /** Every loop runs its body for each of its rounds, in order. */
  function RefTrace(fun: Function, vals: Vals, c: Cfg, ctx: Ctx): seq<RefEvent>
    requires fun.Printable(c)
    decreases c, 0
  {
    match c
    case Root(body) => RefBody(fun, vals, body, ctx)
    case Loop(g, body) =>
      RefIterations(fun, vals, g, body, ctx, Rounds(vals, fun.space.dims[g]))
    case Threads(active, body) => RefBody(fun, vals, body, EnterThreads(fun, active, ctx)) + [RefBarrier]
    case Inst(id) => [Did(id, ctx)]
  }

  function RefBody(fun: Function, vals: Vals, body: seq<Cfg>, ctx: Ctx): seq<RefEvent>
    requires forall k :: 0 <= k < |body| ==> fun.Printable(body[k])
    decreases body, 0
  {
    if body == [] then []
    else RefBody(fun, vals, body[..|body| - 1], ctx) + RefTrace(fun, vals, body[|body| - 1], ctx)
  }

  function RefIterations(fun: Function, vals: Vals, g: nat, body: seq<Cfg>, ctx: Ctx, n: nat): seq<RefEvent>
    requires forall k :: 0 <= k < |body| ==> fun.Printable(body[k])
    decreases body, n + 1
  {
    if n == 0 then []
    else RefIterations(fun, vals, g, body, ctx, n - 1) + RefBody(fun, vals, body, EnterLoop(ctx, g, n - 1))
  }

  // ----- Sums and prefixes -----

  lemma {:induction false} PrefixToAt(incs: seq<Increment>, j: nat)
    requires j < |incs| && forall a, b :: 0 <= a < b < |incs| ==> incs[a].dim != incs[b].dim
    ensures PrefixTo(incs, incs[j].dim) == incs[..j + 1]
  {
    var k := |incs| - 1;
    if j < k {
      PrefixToAt(incs[..k], j);
      assert incs[..k][..j + 1] == incs[..j + 1];
    }
  }

  /** A sum does not depend on dimensions that take no part in it. */
  lemma {:induction false} SumFrame(space: Space, vals: Vals, env: map<nat, int>, incs: seq<Increment>, g: nat, i: int)
    requires forall j :: 0 <= j < |incs| ==> space.Group(incs[j].dim) != g
    ensures Sum(space, vals, env[g := i], incs) == Sum(space, vals, env, incs)
  {
    if incs != [] {
      SumFrame(space, vals, env, incs[..|incs| - 1], g, i);
    }
  }

  lemma {:induction false} SumInsert(space: Space, vals: Vals, env: map<nat, int>, sorted: seq<Increment>, inc: Increment)
    ensures Sum(space, vals, env, space.InsertSorted(sorted, inc)) ==
            Sum(space, vals, env, sorted) + Term(space, vals, env, inc)
  {
    if sorted != [] && (inc.dim, sorted[|sorted| - 1].dim) in space.outer {
      var k := |sorted| - 1;
      SumInsert(space, vals, env, sorted[..k], inc);
      var r := space.InsertSorted(sorted[..k], inc);
      assert (r + [sorted[k]])[..|r|] == r;
    } else {
      assert (sorted + [inc])[..|sorted|] == sorted;
    }
  }

  lemma {:induction false} SumSort(space: Space, vals: Vals, env: map<nat, int>, incs: seq<Increment>)
    ensures Sum(space, vals, env, space.SortOuterFirst(incs)) == Sum(space, vals, env, incs)
  {
    if incs != [] {
      var k := |incs| - 1;
      SumSort(space, vals, env, incs[..k]);
      SumInsert(space, vals, env, space.SortOuterFirst(incs[..k]), incs[k]);
    }
  }

  /** The sum of index times increment over the dimensions that are not vectorised. */
  function ScalarSum(space: Space, vals: Vals, env: map<nat, int>, incs: seq<Increment>): int {
    if incs == [] then 0
    else
      var inc := incs[|incs| - 1];
      ScalarSum(space, vals, env, incs[..|incs| - 1]) + if space.KindOf(inc.dim).Vector? then 0 else Term(space, vals, env, inc)
  }

  lemma {:induction false} ScalarSumSplits(space: Space, vals: Vals, env: map<nat, int>, incs: seq<Increment>)
    ensures ScalarSum(space, vals, env, incs) ==
            Sum(space, vals, env, space.Select(incs, true)) + Sum(space, vals, env, space.Select(incs, false))
  {
    if incs != [] {
      var k := |incs| - 1;
      ScalarSumSplits(space, vals, env, incs[..k]);
      SelectLast(space, vals, env, incs, true);
      SelectLast(space, vals, env, incs, false);
    }
  }

  lemma SelectLast(space: Space, vals: Vals, env: map<nat, int>, incs: seq<Increment>, constant: bool)
    requires incs != []
    ensures
      var inc := incs[|incs| - 1];
      Sum(space, vals, env, space.Select(incs, constant)) ==
      Sum(space, vals, env, space.Select(incs[..|incs| - 1], constant)) +
      if if constant then space.IsConst(inc.dim) else space.IsMut(inc.dim) then Term(space, vals, env, inc) else 0
  {
    var rest := space.Select(incs[..|incs| - 1], constant);
    assert (rest + [incs[|incs| - 1]])[..|rest|] == rest;
  }

  lemma ScalarSumIs(space: Space, vals: Vals, env: map<nat, int>, v: nat)
    requires v < |space.vars|
    ensures ScalarSum(space, vals, env, space.vars[v]) ==
            Sum(space, vals, env, space.ConstLevels(v)) + Sum(space, vals, env, space.MutLevels(v))
  {
    ScalarSumSplits(space, vals, env, space.vars[v]);
    SumSort(space, vals, env, space.Select(space.vars[v], true));
    SumSort(space, vals, env, space.Select(space.vars[v], false));
  }

  // ----- Entering a loop -----

  ghost function Know(space: Space, vals: Vals, ctx: Ctx): Known {
    Known(r => Determined(space, ctx, r), r => Expect(space, vals, ctx.env, r))
  }

  lemma RegInvHolds(space: Space, vals: Vals, ctx: Ctx, regs: Regs)
    ensures RegInv(space, vals, ctx, regs) <==> Holds(Know(space, vals, ctx), regs)
  {
    var known := Know(space, vals, ctx);
    assert forall r :: known.det(r) <==> Determined(space, ctx, r);
    assert forall r :: known.value(r) == Expect(space, vals, ctx.env, r);
  }

  /** What the loop over `g` can still change. */
  ghost predicate CanEnter(space: Space, ctx: Ctx, g: nat) {
    && CtxOk(space, ctx) && g < |space.dims| && g !in ctx.env
    && (space.dims[g].kind.Loop? || space.dims[g].kind.Unroll?)
    && Closed(space, ctx.env.Keys + {g})
  }

  /** The levels around the one of the `j`-th sequential dimension were entered before it. */
  lemma OuterLevels(space: Space, keys: set<nat>, v: nat, j: nat)
    requires space.Valid() && v < |space.vars| && j < |space.MutLevels(v)| && Closed(space, keys)
    requires space.Group(space.MutLevels(v)[j].dim) in keys
    ensures forall a :: 0 <= a < j ==> space.Group(space.MutLevels(v)[a].dim) in keys - {space.Group(space.MutLevels(v)[j].dim)}
  {
    var muts := space.MutLevels(v);
    SortedLevels(space, v, false);
    StrictLevels(space, v);
    forall a | 0 <= a < j ensures space.Group(muts[a].dim) in keys - {space.Group(muts[j].dim)} {
      var p := (muts[a].dim, muts[j].dim);
      assert p in space.outer && space.IsMut(p.0) && space.IsMut(p.1);
      assert space.Group(p.0) in keys;
    }
  }

  lemma ConstGroups(space: Space, v: nat, g: nat)
    requires space.Valid() && v < |space.vars| && g < |space.dims| && (space.dims[g].kind.Loop? || space.dims[g].kind.Unroll?)
    ensures forall a :: 0 <= a < |space.ConstLevels(v)| ==> space.Group(space.ConstLevels(v)[a].dim) != g
  {
    SortedLevels(space, v, true);
    forall a | 0 <= a < |space.ConstLevels(v)| ensures space.Group(space.ConstLevels(v)[a].dim) != g {
      assert space.IsConst(space.ConstLevels(v)[a].dim);
    }
  }

  /** A sequential dimension is not a parallel one. */
  lemma MutNotConst(space: Space, v: nat, j: nat)
    requires space.Valid() && v < |space.vars| && j < |space.MutLevels(v)|
    ensures !HasDim(space.ConstLevels(v), space.MutLevels(v)[j].dim)
    ensures HasDim(space.MutLevels(v), space.MutLevels(v)[j].dim)
    ensures PrefixTo(space.MutLevels(v), space.MutLevels(v)[j].dim) == space.MutLevels(v)[..j + 1]
  {
    SortedLevels(space, v, true);
    SortedLevels(space, v, false);
    PrefixToAt(space.MutLevels(v), j);
    var d := space.MutLevels(v)[j].dim;
    assert space.IsMut(d);
    if a :| 0 <= a < |space.ConstLevels(v)| && space.ConstLevels(v)[a].dim == d {
      assert false;
    }
  }

  lemma LastConst(space: Space, vals: Vals, env: map<nat, int>, v: nat)
    requires v < |space.vars| && space.ConstLevels(v) != []
    ensures
      var d := LastDim(space.ConstLevels(v)).value;
      HasDim(space.ConstLevels(v), d) &&
      Expect(space, vals, env, LevelOf(v, d)) == Sum(space, vals, env, space.ConstLevels(v))
  {
    var consts := space.ConstLevels(v);
    var d := LastDim(consts).value;
    assert consts[|consts| - 1].dim == d;
    assert HasDim(consts, d) && PrefixTo(consts, d) == consts;
  }

  /** A level only reads registers that are known when its loop starts. */
  lemma MutBaseKnown(space: Space, vals: Vals, ctx: Ctx, g: nat, v: nat, j: nat)
    requires space.Valid() && CanEnter(space, ctx, g) && v < |space.vars| && j < |space.MutLevels(v)|
    requires InGroup(space, space.MutLevels(v)[j].dim, g)
    ensures BaseKnown(Know(space, vals, ctx), MutLevel(space, v, j))
  {
    OuterLevels(space, ctx.env.Keys + {g}, v, j);
    if j > 0 {
      MutNotConst(space, v, j - 1);
    } else if space.ConstLevels(v) != [] {
      LastConst(space, vals, ctx.env, v);
    }
  }

  lemma SumStep(space: Space, vals: Vals, env: map<nat, int>, incs: seq<Increment>, j: nat)
    requires j < |incs|
    ensures Sum(space, vals, env, incs[..j + 1]) ==
            Sum(space, vals, env, incs[..j]) + Term(space, vals, env, incs[j])
  {
    assert incs[..j + 1][..j] == incs[..j];
  }

  lemma ExpectMut(space: Space, vals: Vals, env: map<nat, int>, v: nat, j: nat)
    requires space.Valid() && v < |space.vars| && j < |space.MutLevels(v)|
    ensures Expect(space, vals, env, LevelOf(v, space.MutLevels(v)[j].dim)) ==
            vals.base(v) + Sum(space, vals, env, space.ConstLevels(v)) + Sum(space, vals, env, space.MutLevels(v)[..j + 1])
  {
    MutNotConst(space, v, j);
  }

  lemma StartMut(space: Space, vals: Vals, ctx: Ctx, v: nat, j: nat)
    requires space.Valid() && v < |space.vars| && j < |space.MutLevels(v)|
    ensures Start(Know(space, vals, ctx), MutLevel(space, v, j)) ==
            vals.base(v) + Sum(space, vals, ctx.env, space.ConstLevels(v)) + Sum(space, vals, ctx.env, space.MutLevels(v)[..j])
  {
    if j > 0 {
      ExpectMut(space, vals, ctx.env, v, j - 1);
    } else if space.ConstLevels(v) != [] {
      LastConst(space, vals, ctx.env, v);
    }
  }

  /** Iteration `i` must find the start of the level plus `i` steps. */
  lemma MutLevelValue(space: Space, vals: Vals, ctx: Ctx, g: nat, v: nat, j: nat, i: int)
    requires space.Valid() && CanEnter(space, ctx, g) && v < |space.vars| && j < |space.MutLevels(v)|
    requires InGroup(space, space.MutLevels(v)[j].dim, g)
    ensures
      var level := MutLevel(space, v, j);
      var known := Know(space, vals, ctx);
      Expect(space, vals, ctx.env[g := i], LevelReg(level)) == Start(known, level) + i * StepOf(known, level)
  {
    MutSums(space, vals, ctx, g, v, j, i);
    ExpectMut(space, vals, ctx.env[g := i], v, j);
    StartMut(space, vals, ctx, v, j);
  }

  lemma MutSums(space: Space, vals: Vals, ctx: Ctx, g: nat, v: nat, j: nat, i: int)
    requires space.Valid() && CanEnter(space, ctx, g) && v < |space.vars| && j < |space.MutLevels(v)|
    requires InGroup(space, space.MutLevels(v)[j].dim, g)
    ensures Sum(space, vals, ctx.env[g := i], space.ConstLevels(v)) == Sum(space, vals, ctx.env, space.ConstLevels(v))
    ensures Sum(space, vals, ctx.env[g := i], space.MutLevels(v)[..j + 1]) ==
            Sum(space, vals, ctx.env, space.MutLevels(v)[..j]) + i * SizeOf(vals, space.MutLevels(v)[j].step)
  {
    OuterLevels(space, ctx.env.Keys + {g}, v, j);
    ConstGroups(space, v, g);
    SumFrame(space, vals, ctx.env, space.ConstLevels(v), g, i);
    SumFrame(space, vals, ctx.env, space.MutLevels(v)[..j], g, i);
    SumStep(space, vals, ctx.env[g := i], space.MutLevels(v), j);
  }

  lemma ExpectConst(space: Space, vals: Vals, env: map<nat, int>, v: nat, a: nat)
    requires space.Valid() && v < |space.vars| && a < |space.ConstLevels(v)|
    ensures Expect(space, vals, env, LevelOf(v, space.ConstLevels(v)[a].dim)) ==
            Sum(space, vals, env, space.ConstLevels(v)[..a + 1])
  {
    ConstPrefix(space, v, a);
  }

  lemma ConstPrefix(space: Space, v: nat, a: nat)
    requires space.Valid() && v < |space.vars| && a < |space.ConstLevels(v)|
    ensures HasDim(space.ConstLevels(v), space.ConstLevels(v)[a].dim)
    ensures PrefixTo(space.ConstLevels(v), space.ConstLevels(v)[a].dim) == space.ConstLevels(v)[..a + 1]
  {
    SortedLevels(space, v, true);
    PrefixToAt(space.ConstLevels(v), a);
  }

  lemma ConstLevelFrame(space: Space, vals: Vals, ctx: Ctx, g: nat, i: int, v: nat, a: nat)
    requires space.Valid() && CanEnter(space, ctx, g) && v < |space.vars| && a < |space.ConstLevels(v)|
    ensures
      var r := LevelOf(v, space.ConstLevels(v)[a].dim);
      Expect(space, vals, ctx.env[g := i], r) == Expect(space, vals, ctx.env, r)
  {
    ConstGroups(space, v, g);
    SumFrame(space, vals, ctx.env, space.ConstLevels(v)[..a + 1], g, i);
    ExpectConst(space, vals, ctx.env, v, a);
    ExpectConst(space, vals, ctx.env[g := i], v, a);
  }

  lemma MutLevelFrame(space: Space, vals: Vals, ctx: Ctx, g: nat, i: int, v: nat, j: nat)
    requires space.Valid() && CanEnter(space, ctx, g) && v < |space.vars| && j < |space.MutLevels(v)|
    requires space.Group(space.MutLevels(v)[j].dim) in ctx.env
    ensures
      var r := LevelOf(v, space.MutLevels(v)[j].dim);
      Expect(space, vals, ctx.env[g := i], r) == Expect(space, vals, ctx.env, r)
  {
    ConstGroups(space, v, g);
    SumFrame(space, vals, ctx.env, space.ConstLevels(v), g, i);
    OuterLevels(space, ctx.env.Keys, v, j);
    SumFrame(space, vals, ctx.env, space.MutLevels(v)[..j + 1], g, i);
    ExpectMut(space, vals, ctx.env, v, j);
    ExpectMut(space, vals, ctx.env[g := i], v, j);
  }

  /** Entering a loop does not change what the registers known before must hold. */
  lemma ExpectFrame(space: Space, vals: Vals, ctx: Ctx, g: nat, i: int, r: Reg)
    requires space.Valid() && CanEnter(space, ctx, g) && Determined(space, ctx, r)
    ensures Expect(space, vals, ctx.env[g := i], r) == Expect(space, vals, ctx.env, r)
  {
    match r
    case LevelOf(v, d) =>
      if HasDim(space.ConstLevels(v), d) {
        var a :| 0 <= a < |space.ConstLevels(v)| && space.ConstLevels(v)[a].dim == d;
        ConstLevelFrame(space, vals, ctx, g, i, v, a);
      } else {
        var j :| 0 <= j < |space.MutLevels(v)| && space.MutLevels(v)[j].dim == d;
        MutLevelFrame(space, vals, ctx, g, i, v, j);
      }
    case Elsewhere(v) =>
      ConstGroups(space, v, g);
      SumFrame(space, vals, ctx.env, space.ConstLevels(v), g, i);
    case _ =>
  }

  ghost predicate AtIteration(fun: Function, vals: Vals, ctx: Ctx, g: nat, regs: Regs, i: int)
    requires g < |fun.space.dims|
  {
    IterationAt(Know(fun.space, vals, ctx), fun.LoopLevels(g), g, fun.space.dims[g].kind.Loop?, regs, i)
  }

  lemma EnterIteration(fun: Function, vals: Vals, ctx: Ctx, g: nat, regs: Regs, i: int)
    requires fun.Valid() && CanEnter(fun.space, ctx, g) && AtIteration(fun, vals, ctx, g, regs, i)
    ensures RegInv(fun.space, vals, EnterLoop(ctx, g, i), regs) && CtxOk(fun.space, EnterLoop(ctx, g, i))
  {
    var inner := EnterLoop(ctx, g, i);
    assert inner.env.Keys == ctx.env.Keys + {g};
    forall r | Determined(fun.space, inner, r) ensures Get(regs, r) == Expect(fun.space, vals, inner.env, r) {
      EnteredRegister(fun, vals, ctx, g, regs, i, r);
    }
  }

  lemma LevelRegistered(fun: Function, g: nat, v: nat, j: nat) returns (k: nat)
    requires fun.Valid() && g < |fun.space.dims| && (fun.space.dims[g].kind.Loop? || fun.space.dims[g].kind.Unroll?)
    requires v < |fun.space.vars| && j < |fun.space.MutLevels(v)| && InGroup(fun.space, fun.space.MutLevels(v)[j].dim, g)
    ensures k < |fun.LoopLevels(g)| && fun.LoopLevels(g)[k] == MutLevel(fun.space, v, j)
  {
    LoopLevelsComplete(fun.space, g);
    assert MutLevel(fun.space, v, j) in fun.LoopLevels(g);
    k :| 0 <= k < |fun.LoopLevels(g)| && fun.LoopLevels(g)[k] == MutLevel(fun.space, v, j);
  }

  lemma EnteredLevel(fun: Function, vals: Vals, ctx: Ctx, g: nat, regs: Regs, i: int, v: nat, j: nat)
    requires fun.Valid() && CanEnter(fun.space, ctx, g) && AtIteration(fun, vals, ctx, g, regs, i)
    requires v < |fun.space.vars| && j < |fun.space.MutLevels(v)| && InGroup(fun.space, fun.space.MutLevels(v)[j].dim, g)
    ensures
      var r := LevelOf(v, fun.space.MutLevels(v)[j].dim);
      Get(regs, r) == Expect(fun.space, vals, ctx.env[g := i], r)
  {
    var k := LevelRegistered(fun, g, v, j);
    assert LevelAt(Know(fun.space, vals, ctx), regs, fun.LoopLevels(g)[k], i);
    MutLevelValue(fun.space, vals, ctx, g, v, j, i);
  }

  lemma EnteredRegister(fun: Function, vals: Vals, ctx: Ctx, g: nat, regs: Regs, i: int, r: Reg)
    requires fun.Valid() && CanEnter(fun.space, ctx, g) && AtIteration(fun, vals, ctx, g, regs, i)
    requires Determined(fun.space, EnterLoop(ctx, g, i), r)
    ensures Get(regs, r) == Expect(fun.space, vals, EnterLoop(ctx, g, i).env, r)
  {
    RegInvHolds(fun.space, vals, ctx, regs);
    if Determined(fun.space, ctx, r) {
      ExpectFrame(fun.space, vals, ctx, g, i, r);
    } else if r.LevelOf? {
      var j := EnteredIndex(fun.space, ctx, g, i, r);
      EnteredLevel(fun, vals, ctx, g, regs, i, r.v, j);
    }
  }

  /** The register of a level that becomes determined belongs to the loop entered. */
  lemma EnteredIndex(space: Space, ctx: Ctx, g: nat, i: int, r: Reg) returns (j: nat)
    requires space.Valid() && r.LevelOf? && Determined(space, EnterLoop(ctx, g, i), r) && !Determined(space, ctx, r)
    ensures j < |space.MutLevels(r.v)| && r.dim == space.MutLevels(r.v)[j].dim && InGroup(space, r.dim, g)
  {
    j :| 0 <= j < |space.MutLevels(r.v)| && space.MutLevels(r.v)[j].dim == r.dim;
    SortedLevels(space, r.v, false);
  }

  /** Inside the loop, its levels hold their value for the iteration. */
  lemma LevelLeft(space: Space, vals: Vals, ctx: Ctx, g: nat, regs: Regs, i: int, level: Level)
    requires space.Valid() && CanEnter(space, ctx, g) && RegInv(space, vals, EnterLoop(ctx, g, i), regs) && IsLevelOf(space, g, level)
    ensures LevelAt(Know(space, vals, ctx), regs, level, i)
  {
    var j :| 0 <= j < |space.MutLevels(level.v)| && level == MutLevel(space, level.v, j) && InGroup(space, space.MutLevels(level.v)[j].dim, g);
    MutNotConst(space, level.v, j);
    assert Determined(space, EnterLoop(ctx, g, i), LevelReg(level));
    MutLevelValue(space, vals, ctx, g, level.v, j, i);
  }

  lemma LeaveIteration(fun: Function, vals: Vals, ctx: Ctx, g: nat, regs: Regs, i: int)
    requires fun.Valid() && CanEnter(fun.space, ctx, g) && RegInv(fun.space, vals, EnterLoop(ctx, g, i), regs)
    ensures AtIteration(fun, vals, ctx, g, regs, i)
  {
    var inner := EnterLoop(ctx, g, i);
    forall r | Determined(fun.space, ctx, r) ensures Get(regs, r) == Expect(fun.space, vals, ctx.env, r) {
      assert Determined(fun.space, inner, r);
      ExpectFrame(fun.space, vals, ctx, g, i, r);
    }
    RegInvHolds(fun.space, vals, ctx, regs);
    LoopLevelsComplete(fun.space, g);
    forall k | 0 <= k < |fun.LoopLevels(g)| ensures LevelAt(Know(fun.space, vals, ctx), regs, fun.LoopLevels(g)[k], i) {
      assert IsLevelOf(fun.space, g, fun.LoopLevels(g)[k]);
      LevelLeft(fun.space, vals, ctx, g, regs, i, fun.LoopLevels(g)[k]);
    }
    if fun.space.dims[g].kind.Loop? {
      assert Determined(fun.space, inner, Index(g));
    }
  }
}
