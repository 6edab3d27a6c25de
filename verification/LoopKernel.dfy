/** The whole kernel: the levels of parallel dimensions, then the printed loop nest. */
module LoopKernel {
  import opened Wrappers
  import opened Sequences
  import opened InductionVars
  import opened InductionLevels
  import opened LoopCode
  import opened StraightCode
  import opened Triples
  import opened LoopMeaning
  import opened LoopCorrect
  import opened LoopRun
  import opened LoopTheorem

  // ----- What instructions read -----

  /** Every loop and block of threads the variable depends on encloses the point. */
  ghost predicate Encloses(space: Space, ctx: Ctx, v: nat)
    requires v < |space.vars|
  {
    && (forall j :: 0 <= j < |space.vars[v]| && space.IsMut(space.vars[v][j].dim) ==> space.Group(space.vars[v][j].dim) in ctx.env)
    && (ComputedElsewhere(space, v) ==> Available(space, ctx, v))
  }

  lemma LastMut(space: Space, ctx: Ctx, v: nat)
    requires space.Valid() && v < |space.vars| && space.MutLevels(v) != [] && Encloses(space, ctx, v)
    ensures
      var d := LastDim(space.MutLevels(v)).value;
      HasDim(space.MutLevels(v), d) && space.Group(d) in ctx.env
  {
    var muts := space.MutLevels(v);
    SortedLevels(space, v, false);
    var last := muts[|muts| - 1];
    assert last in multiset(muts);
    assert last in space.Select(space.vars[v], false);
    var j :| 0 <= j < |space.vars[v]| && space.vars[v][j] == last;
    assert HasDim(muts, last.dim);
  }

  /** The register of the last loop level holds the whole sum. */
  lemma LastLevelValue(space: Space, vals: Vals, ctx: Ctx, regs: Regs, v: nat)
    requires space.Valid() && RegInv(space, vals, ctx, regs) && v < |space.vars| && Encloses(space, ctx, v) && space.MutLevels(v) != []
    ensures Get(regs, LevelOf(v, LastDim(space.MutLevels(v)).value)) ==
            vals.base(v) + Sum(space, vals, ctx.env, space.ConstLevels(v)) + Sum(space, vals, ctx.env, space.MutLevels(v))
  {
    var muts := space.MutLevels(v);
    LastMut(space, ctx, v);
    ExpectMut(space, vals, ctx.env, v, |muts| - 1);
    assert muts[..|muts| - 1 + 1] == muts;
    assert Determined(space, ctx, LevelOf(v, LastDim(muts).value));
  }

  /** The operand read for a variable is its base plus index times increment over its scalar dimensions. */
  lemma OperandValue(space: Space, vals: Vals, ctx: Ctx, regs: Regs, v: nat)
    requires space.Valid() && RegInv(space, vals, ctx, regs) && v < |space.vars| && Encloses(space, ctx, v)
    ensures Eval(regs, NameInductionVar(space, v)) == vals.base(v) + ScalarSum(space, vals, ctx.env, space.vars[v])
  {
    ScalarSumIs(space, vals, ctx.env, v);
    if space.MutLevels(v) != [] {
      LastLevelValue(space, vals, ctx, regs, v);
    } else if space.ConstLevels(v) != [] {
      assert Determined(space, ctx, Elsewhere(v));
    } else {
      assert Determined(space, ctx, Base(v));
    }
  }

  // ----- The levels computed first -----

  lemma PrecomputedLevel(fun: Function, k: nat) returns (v: nat, j: nat)
    requires fun.Valid() && k < |fun.precomputed|
    ensures v < |fun.space.vars| && j < |fun.space.ConstLevels(v)|
    ensures fun.precomputed[k] == PrecomputedOf(fun.space, v, |fun.space.ConstLevels(v)|)[j]
    ensures j > 0 ==> k > 0 && fun.precomputed[k - 1] == PrecomputedOf(fun.space, v, |fun.space.ConstLevels(v)|)[j - 1]
  {
    v, j := FlattenAt(PrecomputedParts(fun.space, |fun.space.vars|), k);
  }

  lemma LevelPrecomputed(fun: Function, v: nat, j: nat) returns (k: nat)
    requires fun.Valid() && v < |fun.space.vars| && j < |fun.space.ConstLevels(v)|
    ensures k < |fun.precomputed| && LevelReg(fun.precomputed[k]) == LevelOf(v, fun.space.ConstLevels(v)[j].dim)
  {
    var parts := PrecomputedParts(fun.space, |fun.space.vars|);
    var level := PrecomputedOf(fun.space, v, |fun.space.ConstLevels(v)|)[j];
    assert level in parts[v];
    InFlatten(parts, level);
    k :| 0 <= k < |fun.precomputed| && fun.precomputed[k] == level;
  }

  /** The registers a kernel starts with: parameters, base operands and parallel indexes. */
  ghost predicate Given(space: Space, r: Reg) {
    match r
    case Param(_) => true
    case Base(_) => true
    case Index(g) => g < |space.dims| && (space.dims[g].kind.Block? || space.dims[g].kind.Thread?)
    case _ => false
  }

  ghost function Start(space: Space, vals: Vals, env: map<nat, int>): Known {
    Known.Known(r => Given(space, r), r => Expect(space, vals, env, r))
  }

  /** The context before any loop or block of threads. */
  function Outside(env: map<nat, int>): Ctx {
    Ctx(env, {}, false, true)
  }

  ghost predicate StartsWith(space: Space, vals: Vals, env: map<nat, int>, regs: Regs) {
    forall r :: Given(space, r) ==> Get(regs, r) == Expect(space, vals, env, r)
  }

  /** Only block and thread indexes are fixed when the kernel starts. */
  ghost predicate ParallelEnv(space: Space, env: map<nat, int>) {
    forall g: nat :: g in env <==> g < |space.dims| && (space.dims[g].kind.Block? || space.dims[g].kind.Thread?)
  }

  lemma ConstIndexGiven(space: Space, v: nat, j: nat)
    requires space.Valid() && v < |space.vars| && j < |space.ConstLevels(v)|
    ensures Given(space, Index(space.Group(space.ConstLevels(v)[j].dim)))
  {
    SortedLevels(space, v, true);
    assert space.IsConst(space.ConstLevels(v)[j].dim);
  }

  lemma PrecomputedValue(space: Space, vals: Vals, env: map<nat, int>, v: nat, j: nat)
    requires space.Valid() && v < |space.vars| && j < |space.ConstLevels(v)|
    ensures
      var consts := space.ConstLevels(v);
      Expect(space, vals, env, LevelOf(v, consts[j].dim)) ==
      (if j == 0 then 0 else Expect(space, vals, env, LevelOf(v, consts[j - 1].dim))) + Term(space, vals, env, consts[j])
  {
    ExpectConst(space, vals, env, v, j);
    SumStep(space, vals, env, space.ConstLevels(v), j);
    if j > 0 {
      ExpectConst(space, vals, env, v, j - 1);
    }
  }

  /** A parallel level adds the product of its index and increment to the previous one. */
  lemma PrecomputedSound(fun: Function, vals: Vals, env: map<nat, int>, levels: seq<Level>, k: nat)
    requires fun.Valid() && k < |fun.precomputed| <= |levels| && levels[..|fun.precomputed|] == fun.precomputed
    ensures ParallelPrintable(levels[k]) && ParallelSound(Start(fun.space, vals, env), fun.space, levels, k)
  {
    var v, j := PrecomputedLevel(fun, k);
    assert levels[k] == fun.precomputed[k];
    if j > 0 {
      assert levels[k - 1] == fun.precomputed[k - 1];
    }
    ConstIndexGiven(fun.space, v, j);
    PrecomputedValue(fun.space, vals, env, v, j);
    ChainSound(fun.space, vals, env, levels, k, v, j);
  }

  lemma ChainSound(space: Space, vals: Vals, env: map<nat, int>, levels: seq<Level>, k: nat, v: nat, j: nat)
    requires v < |space.vars| && j < |space.ConstLevels(v)| && k < |levels|
    requires levels[k] == PrecomputedOf(space, v, |space.ConstLevels(v)|)[j]
    requires j > 0 ==> k > 0 && levels[k - 1] == PrecomputedOf(space, v, |space.ConstLevels(v)|)[j - 1]
    requires Given(space, Index(space.Group(space.ConstLevels(v)[j].dim)))
    requires
      var consts := space.ConstLevels(v);
      Expect(space, vals, env, LevelOf(v, consts[j].dim)) ==
      (if j == 0 then 0 else Expect(space, vals, env, LevelOf(v, consts[j - 1].dim))) + Term(space, vals, env, consts[j])
    ensures ParallelPrintable(levels[k]) && ParallelSound(Start(space, vals, env), space, levels, k)
  {
    if j > 0 {
      assert LevelReg(levels[k - 1]) == LevelOf(v, space.ConstLevels(v)[j - 1].dim);
      assert KnownOrEarlier(Start(space, vals, env), levels, k, LevelOf(v, space.ConstLevels(v)[j - 1].dim));
    }
  }

  lemma ElsewhereValue(space: Space, vals: Vals, env: map<nat, int>, v: nat, d: nat)
    requires v < |space.vars| && space.ConstLevels(v) != [] && d == LastDim(space.ConstLevels(v)).value
    ensures Expect(space, vals, env, Elsewhere(v)) == vals.base(v) + Expect(space, vals, env, LevelOf(v, d))
  {
    LastConst(space, vals, env, v);
  }

  lemma LastPrecomputed(fun: Function, v: nat) returns (a: nat)
    requires fun.Valid() && v < |fun.space.vars| && fun.space.ConstLevels(v) != []
    ensures a < |fun.precomputed| && LevelReg(fun.precomputed[a]) == LevelOf(v, LastDim(fun.space.ConstLevels(v)).value)
  {
    a := LevelPrecomputed(fun, v, |fun.space.ConstLevels(v)| - 1);
  }

  /** The levels of block dimensions add base operands to the last parallel levels. */
  lemma BlockSound(fun: Function, vals: Vals, env: map<nat, int>, levels: seq<Level>, k: nat)
    requires fun.Valid() && |fun.precomputed| <= k < |levels| && levels[..|fun.precomputed|] == fun.precomputed
    requires levels[k].v < |fun.space.vars| && ComputedElsewhere(fun.space, levels[k].v) && levels[k] == ElsewhereLevel(fun.space, levels[k].v)
    ensures ParallelPrintable(levels[k]) && ParallelSound(Start(fun.space, vals, env), fun.space, levels, k)
  {
    var v := levels[k].v;
    var d := LastDim(fun.space.ConstLevels(v)).value;
    var a := LastPrecomputed(fun, v);
    assert levels[a] == fun.precomputed[a];
    ElsewhereValue(fun.space, vals, env, v, d);
    AddsToEarlier(fun.space, vals, env, levels, k, a, v, d);
  }

  lemma AddsToEarlier(space: Space, vals: Vals, env: map<nat, int>, levels: seq<Level>, k: nat, a: nat, v: nat, d: nat)
    requires a < k < |levels| && levels[k] == Level(v, None, Value(Some(d), true))
    requires LevelReg(levels[a]) == LevelOf(v, d)
    requires Expect(space, vals, env, Elsewhere(v)) == vals.base(v) + Expect(space, vals, env, LevelOf(v, d))
    ensures ParallelPrintable(levels[k]) && ParallelSound(Start(space, vals, env), space, levels, k)
  {
    assert KnownOrEarlier(Start(space, vals, env), levels, k, LevelOf(v, d));
  }

  lemma BlockLevelsAre(fun: Function, level: Level)
    requires fun.Valid()
    ensures level in fun.BlockLevels() <==> exists k :: 0 <= k < |fun.blockDims| && level in fun.LoopLevels(fun.blockDims[k])
  {
    var parts := fun.BlockParts();
    InFlatten(parts, level);
    assert forall k :: 0 <= k < |parts| ==> parts[k] == fun.LoopLevels(fun.blockDims[k]);
  }

  lemma BlockLevel(fun: Function, level: Level)
    requires fun.Valid() && level in fun.BlockLevels()
    ensures level.v < |fun.space.vars| && ComputedElsewhere(fun.space, level.v) && level == ElsewhereLevel(fun.space, level.v)
  {
    BlockLevelsAre(fun, level);
    var k :| 0 <= k < |fun.blockDims| && level in fun.LoopLevels(fun.blockDims[k]);
    var ids := fun.space.dims[fun.blockDims[k]].ids;
    LevelsOfDimsContains(fun.table, ids, level);
    var a :| 0 <= a < |ids| && (ids[a], level) in fun.table;
    var e := (ids[a], level);
    assert fun.space.IsConst(e.0);
    EntryKeyed(fun.space, e);
    EntryOfParallel(fun.space, e);
  }

  lemma BlockRegistered(fun: Function, v: nat)
    requires fun.Valid() && v < |fun.space.vars| && ComputedElsewhere(fun.space, v)
    requires fun.space.KindOf(LastDim(fun.space.ConstLevels(v)).value).Block?
    ensures ElsewhereLevel(fun.space, v) in fun.BlockLevels()
  {
    var d, level := LastDim(fun.space.ConstLevels(v)).value, ElsewhereLevel(fun.space, v);
    var g := fun.space.group[d];
    EntryKeyed(fun.space, (d, level));
    var ids := fun.space.dims[g].ids;
    LevelsOfDimsContains(fun.table, ids, level);
    var a :| 0 <= a < |ids| && ids[a] == d;
    assert (ids[a], level) in fun.table;
    var k :| 0 <= k < |fun.blockDims| && fun.blockDims[k] == g;
    BlockLevelsAre(fun, level);
  }

  lemma InitSound(fun: Function, vals: Vals, env: map<nat, int>, k: nat)
    requires fun.Valid() && k < |fun.InitLevels()|
    ensures ParallelPrintable(fun.InitLevels()[k]) && ParallelSound(Start(fun.space, vals, env), fun.space, fun.InitLevels(), k)
  {
    var levels := fun.InitLevels();
    assert levels[..|fun.precomputed|] == fun.precomputed;
    if k < |fun.precomputed| {
      PrecomputedSound(fun, vals, env, levels, k);
    } else {
      assert levels[k] == fun.BlockLevels()[k - |fun.precomputed|];
      BlockLevel(fun, levels[k]);
      BlockSound(fun, vals, env, levels, k);
    }
  }

  lemma ConstKnown(fun: Function, vals: Vals, env: map<nat, int>, v: nat, d: nat)
    requires fun.Valid() && v < |fun.space.vars| && HasDim(fun.space.ConstLevels(v), d)
    ensures KnownOrEarlier(Start(fun.space, vals, env), fun.InitLevels(), |fun.InitLevels()|, LevelOf(v, d))
  {
    var j :| 0 <= j < |fun.space.ConstLevels(v)| && fun.space.ConstLevels(v)[j].dim == d;
    var k := LevelPrecomputed(fun, v, j);
    assert LevelReg(fun.InitLevels()[k]) == LevelOf(v, d);
  }

  lemma ElsewhereKnown(fun: Function, vals: Vals, env: map<nat, int>, v: nat)
    requires fun.Valid() && v < |fun.space.vars| && ComputedElsewhere(fun.space, v)
    requires fun.space.KindOf(LastDim(fun.space.ConstLevels(v)).value).Block?
    ensures KnownOrEarlier(Start(fun.space, vals, env), fun.InitLevels(), |fun.InitLevels()|, Elsewhere(v))
  {
    BlockRegistered(fun, v);
    assert ElsewhereLevel(fun.space, v) in fun.precomputed + fun.BlockLevels();
    LevelKnown(Start(fun.space, vals, env), fun.InitLevels(), ElsewhereLevel(fun.space, v));
  }

  lemma LevelKnown(known: Known, levels: seq<Level>, level: Level)
    requires level in levels
    ensures KnownOrEarlier(known, levels, |levels|, LevelReg(level))
  {
    var k :| 0 <= k < |levels| && levels[k] == level;
  }

  /** Everything known outside loops was given or is computed first. */
  lemma InitComplete(fun: Function, vals: Vals, env: map<nat, int>, r: Reg)
    requires fun.Valid() && ParallelEnv(fun.space, env) && Determined(fun.space, Outside(env), r)
    ensures KnownOrEarlier(Start(fun.space, vals, env), fun.InitLevels(), |fun.InitLevels()|, r)
  {
    match r
    case LevelOf(v, d) =>
      NoLoopEntered(fun.space, env, v, d);
      ConstKnown(fun, vals, env, v, d);
    case Elsewhere(v) => ElsewhereKnown(fun, vals, env, v);
    case Index(g) => assert Start(fun.space, vals, env).det(r);
    case Param(_) => assert Start(fun.space, vals, env).det(r);
    case Base(_) => assert Start(fun.space, vals, env).det(r);
    case Tmp(_) =>
  }

  lemma NoLoopEntered(space: Space, env: map<nat, int>, v: nat, d: nat)
    requires space.Valid() && ParallelEnv(space, env) && v < |space.vars|
    ensures !(HasDim(space.MutLevels(v), d) && space.Group(d) in env)
  {
    if HasDim(space.MutLevels(v), d) {
      var j :| 0 <= j < |space.MutLevels(v)| && space.MutLevels(v)[j].dim == d;
      SortedLevels(space, v, false);
      assert space.IsMut(d);
    }
  }

  /** The code before the loop nest leaves the registers known outside loops. */
  lemma InitRegsOk(fun: Function, vals: Vals, env: map<nat, int>, regs: Regs)
    requires fun.Valid() && ParallelEnv(fun.space, env) && StartsWith(fun.space, vals, env, regs)
    ensures forall k :: 0 <= k < |fun.InitLevels()| ==> ParallelPrintable(fun.InitLevels()[k])
    ensures RegInv(fun.space, vals, Outside(env), ParallelRegs(regs, fun.space, fun.InitLevels(), |fun.InitLevels()|))
  {
    var levels, known := fun.InitLevels(), Start(fun.space, vals, env);
    forall k | 0 <= k < |levels| ensures ParallelPrintable(levels[k]) && ParallelSound(known, fun.space, levels, k) {
      InitSound(fun, vals, env, k);
    }
    assert forall p: nat :: known.det(Param(p));
    assert Holds(known, regs);
    ParallelRegsOk(known, regs, fun.space, levels, |levels|);
    var regs' := ParallelRegs(regs, fun.space, levels, |levels|);
    forall r | Determined(fun.space, Outside(env), r) ensures Get(regs', r) == Expect(fun.space, vals, env, r) {
      InitComplete(fun, vals, env, r);
    }
  }

  // ----- The kernel -----

  /** What an execution of an instruction must see: the right copy, guard, registers and operands. */
  ghost predicate Faithful(fun: Function, vals: Vals, e: Event, r: RefEvent) {
    match (e, r)
    case (Barrier, RefBarrier) => true
    case (Ran(inst, current, effect, regs), Did(id, ctx)) =>
      && inst == id && effect == ctx.effect && CurrentOk(fun.space, current, ctx.env)
      && (forall g :: g in ctx.env && !IsUnrolled(fun.space, g) ==> Get(regs, Index(g)) == ctx.env[g])
      && (forall v :: 0 <= v < |fun.space.vars| && Encloses(fun.space, ctx, v) ==>
            Eval(regs, NameInductionVar(fun.space, v)) == vals.base(v) + ScalarSum(fun.space, vals, ctx.env, fun.space.vars[v]))
    case _ => false
  }

  lemma MatchIsFaithful(fun: Function, vals: Vals, e: Event, r: RefEvent)
    requires fun.Valid() && EventMatches(fun, vals, e, r)
    ensures Faithful(fun, vals, e, r)
  {
    match (e, r)
    case (Ran(inst, current, effect, regs), Did(id, ctx)) =>
      forall g | g in ctx.env && !IsUnrolled(fun.space, g) ensures Get(regs, Index(g)) == ctx.env[g] {
        assert Determined(fun.space, ctx, Index(g));
      }
      forall v | 0 <= v < |fun.space.vars| && Encloses(fun.space, ctx, v)
        ensures Eval(regs, NameInductionVar(fun.space, v)) == vals.base(v) + ScalarSum(fun.space, vals, ctx.env, fun.space.vars[v])
      {
        OperandValue(fun.space, vals, ctx, regs, v);
      }
    case _ =>
  }

  /** A kernel that can be printed: levels are registered and the nest respects the order of its loops. */
  ghost predicate KernelOk(fun: Function, vals: Vals, c: Cfg, env: map<nat, int>) {
    && fun.Valid() && fun.Printable(c) && ParallelEnv(fun.space, env)
    && Closed(fun.space, env.Keys) && WellNested(fun, vals, c, env.Keys, false)
  }

  const NO_NAMES := Names(0, 0, map[], None)

  lemma AllPrintable(fun: Function)
    requires fun.Valid()
    ensures forall k :: 0 <= k < |fun.InitLevels()| ==> ParallelPrintable(fun.InitLevels()[k])
  {
    forall k | 0 <= k < |fun.InitLevels()| ensures ParallelPrintable(fun.InitLevels()[k]) {
      InitSound(fun, Vals(_ => 0, _ => 0), map[], k);
    }
  }

  lemma KernelLabels(fun: Function, c: Cfg)
    requires fun.Valid() && fun.Printable(c)
    requires forall k :: 0 <= k < |fun.InitLevels()| ==> ParallelPrintable(fun.InitLevels()[k])
    ensures UniqueLabels(KernelCode(fun, c, NO_NAMES).code)
  {
    var init := ParallelCodes(fun.space, fun.InitLevels(), |fun.InitLevels()|);
    var inner := CfgCode(fun, c, NO_NAMES);
    ParallelNoLabel(fun.space, fun.InitLevels(), |fun.InitLevels()|);
    FreshNone(init, 0);
    CfgLabels(fun, c, NO_NAMES);
    FreshConcat(init, inner.code, 0, 0, inner.names.labels);
    FreshAreUnique(init + inner.code, 0, inner.names.labels);
  }

  lemma SplitCode(code: seq<Instr>, init: seq<Instr>, inner: seq<Instr>)
    requires code == init + inner
    ensures At(code, 0, init) && At(code, |init|, inner)
  {
    assert code[0..0 + |code|] == code;
    AtConcat(code, 0, init, inner);
  }

  lemma RunInit(fun: Function, vals: Vals, c: Cfg, env: map<nat, int>, regs: Regs, code: seq<Instr>) returns (regs1: Regs, p: nat)
    requires KernelOk(fun, vals, c, env) && StartsWith(fun.space, vals, env, regs)
    requires forall k :: 0 <= k < |fun.InitLevels()| ==> ParallelPrintable(fun.InitLevels()[k])
    requires code == KernelCode(fun, c, NO_NAMES).code
    ensures Reaches(code, Machine(0, regs, []), Machine(p, regs1, [])) && RegInv(fun.space, vals, Outside(env), regs1)
    ensures At(code, p, CfgCode(fun, c, NO_NAMES).code) && |code| == p + |CfgCode(fun, c, NO_NAMES).code|
  {
    var levels := fun.InitLevels();
    var init, inner := ParallelCodes(fun.space, levels, |levels|), CfgCode(fun, c, NO_NAMES).code;
    SplitCode(code, init, inner);
    InitRegsOk(fun, vals, env, regs);
    regs1, p := ParallelRegs(regs, fun.space, levels, |levels|), |init|;
    RunParallel(code, 0, regs, fun.space, levels, |levels|, []);
  }

  /** From the registers known outside loops, the loop nest runs to the end of the code. */
  lemma RunNest(fun: Function, vals: Vals, c: Cfg, env: map<nat, int>, regs1: Regs, code: seq<Instr>, p: nat)
    returns (regs': Regs, trace: seq<Event>)
    requires KernelOk(fun, vals, c, env) && UniqueLabels(code) && RegInv(fun.space, vals, Outside(env), regs1)
    requires At(code, p, CfgCode(fun, c, NO_NAMES).code) && |code| == p + |CfgCode(fun, c, NO_NAMES).code|
    ensures Reaches(code, Machine(p, regs1, []), Machine(|code|, regs', trace))
    ensures
      var ref := RefTrace(fun, vals, c, Outside(env));
      |trace| == |ref| && forall k :: 0 <= k < |trace| ==> EventMatches(fun, vals, trace[k], ref[k])
  {
    var w, ctx := World(fun, vals, code), Outside(env);
    var pre := Inside(ctx, 0, regs1);
    RunCfg(w, p, |code|, c, ctx, NO_NAMES, NO_NAMES, regs1, pre);
    assert w.Sat(pre, regs1) && w.Program().sat(pre, regs1);
    regs', trace := RunTriple(w.Program(), p, |code|, pre, pre, RefTrace(fun, vals, c, ctx), regs1, []);
    assert [] + trace == trace;
    forall k | 0 <= k < |trace| ensures EventMatches(fun, vals, trace[k], RefTrace(fun, vals, c, ctx)[k]) {
      assert w.Program().matches(trace[k], RefTrace(fun, vals, c, ctx)[k]);
    }
  }

  /**
   The printed kernel runs to its end. It executes the instructions of the loop nest in order,
   each once per tuple of indexes, and every execution reads, for each induction variable whose
   dimensions enclose it, the base plus index times increment over the dimensions that are not
   vectorised.
   */
  lemma KernelCorrect(fun: Function, vals: Vals, c: Cfg, env: map<nat, int>, regs: Regs)
    returns (code: seq<Instr>, steps: nat, regs': Regs, trace: seq<Event>)
    requires KernelOk(fun, vals, c, env) && StartsWith(fun.space, vals, env, regs)
    ensures (forall k :: 0 <= k < |fun.InitLevels()| ==> ParallelPrintable(fun.InitLevels()[k])) && code == KernelCode(fun, c, NO_NAMES).code
    ensures Steps(code, Machine(0, regs, []), steps) == Machine(|code|, regs', trace)
    ensures
      var ref := RefTrace(fun, vals, c, Outside(env));
      |trace| == |ref| && forall k :: 0 <= k < |trace| ==> Faithful(fun, vals, trace[k], ref[k])
  {
    AllPrintable(fun);
    KernelLabels(fun, c);
    code := KernelCode(fun, c, NO_NAMES).code;
    var regs1, p := RunInit(fun, vals, c, env, regs, code);
    regs', trace := RunNest(fun, vals, c, env, regs1, code, p);
    ReachesTrans(code, Machine(0, regs, []), Machine(p, regs1, []), Machine(|code|, regs', trace));
    steps :| Steps(code, Machine(0, regs, []), steps) == Machine(|code|, regs', trace);
    var ref := RefTrace(fun, vals, c, Outside(env));
    forall k | 0 <= k < |trace| ensures Faithful(fun, vals, trace[k], ref[k]) {
      MatchIsFaithful(fun, vals, trace[k], ref[k]);
    }
  }
}
