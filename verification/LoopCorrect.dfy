/** Running the printed code computes what the loop nest means. */
module LoopCorrect {
  import opened Wrappers
  import opened InductionVars
  import opened InductionLevels
  import opened LoopCode
  import opened StraightCode
  import opened LoopMeaning

  // ----- Hypotheses and conclusions -----

  /** The nest respects the order of its loops; blocks of threads are not nested. */
  ghost predicate WellNested(fun: Function, vals: Vals, c: Cfg, keys: set<nat>, inThreads: bool)
    decreases c
  {
    match c
    case Root(body) => forall k :: 0 <= k < |body| ==> WellNested(fun, vals, body[k], keys, inThreads)
    case Loop(g, body) =>
      && g < |fun.space.dims| && g !in keys && Closed(fun.space, keys + {g})
      && forall k :: 0 <= k < |body| ==> WellNested(fun, vals, body[k], keys + {g}, inThreads)
    case Threads(active, body) =>
      && !inThreads && ActiveOk(fun, active)
      && forall k :: 0 <= k < |body| ==> WellNested(fun, vals, body[k], keys, true)
    case Inst(_) => inThreads
  }

  /** The active dimensions of a block of threads, at their position. */
  ghost predicate ActiveOk(fun: Function, active: seq<Option<nat>>) {
    && |active| == |fun.threadDims|
    && forall d :: d in fun.ActiveIds(active) ==> d in fun.space.group && fun.space.group[d] in fun.threadDims
  }

  /** A jump to a label reaches its only occurrence. */
  ghost predicate UniqueLabels(code: seq<Instr>) {
    forall i :: 0 <= i < |code| && code[i].Label? ==> Find(code, code[i].l) == i
  }

  predicate IsUnrolled(space: Space, g: nat) {
    g < |space.dims| && space.dims[g].kind.Unroll?
  }

  /** The current indexes are exactly those of the unrolled loops around. */
  ghost predicate CurrentOk(space: Space, current: map<nat, nat>, env: map<nat, int>) {
    && (forall g :: g in current <==> g in env && IsUnrolled(space, g))
    && forall g :: g in current && g in env ==> current[g] == env[g]
  }

  ghost predicate GuardHolds(names: Names, ctx: Ctx, regs: Regs) {
    match names.guard
    case None => ctx.effect
    case Some(r) => r.Tmp? && r.t < names.tmps && (Get(regs, r) != 0 <==> ctx.effect)
  }

  ghost predicate EventMatches(fun: Function, vals: Vals, e: Event, r: RefEvent) {
    match (e, r)
    case (Barrier, RefBarrier) => true
    case (Ran(inst, current, effect, regs), Did(id, ctx)) =>
      && inst == id && effect == ctx.effect && CurrentOk(fun.space, current, ctx.env)
      && CtxOk(fun.space, ctx) && RegInv(fun.space, vals, ctx, regs)
    case _ => false
  }

  // ----- Loops -----

  /** The levels of a loop have a register each. */
  lemma RegistersApart(space: Space, g: nat)
    requires space.WellFormed() && g < |space.dims| && (space.dims[g].kind.Loop? || space.dims[g].kind.Unroll?)
    ensures
      var levels := LevelsOfDims(LevelTable(space, |space.vars|), space.dims[g].ids);
      forall a, b :: 0 <= a < b < |levels| ==> LevelReg(levels[a]) != LevelReg(levels[b])
  {
    var levels := LevelsOfDims(LevelTable(space, |space.vars|), space.dims[g].ids);
    LoopLevelsComplete(space, g);
    forall a, b | 0 <= a < b < |levels| ensures LevelReg(levels[a]) != LevelReg(levels[b]) {
      assert IsLevelOf(space, g, levels[a]) && IsLevelOf(space, g, levels[b]);
      SameRegister(space, g, levels[a], levels[b]);
    }
  }

  /** The levels of a loop can be computed where it starts. */
  lemma LevelsReady(fun: Function, vals: Vals, ctx: Ctx, g: nat)
    requires fun.Valid() && CanEnter(fun.space, ctx, g)
    ensures LevelsOk(Know(fun.space, vals, ctx), fun.LoopLevels(g))
  {
    var known, levels := Know(fun.space, vals, ctx), fun.LoopLevels(g);
    LoopLevelsComplete(fun.space, g);
    forall k | 0 <= k < |levels|
      ensures BaseKnown(known, levels[k]) && levels[k].base.NumComponents() > 0 &&
              !known.det(LevelReg(levels[k])) && levels[k].increment.Some?
    {
      assert IsLevelOf(fun.space, g, levels[k]);
      LevelReady(fun.space, vals, ctx, g, levels[k]);
    }
    RegistersApart(fun.space, g);
    assert forall p: nat :: known.det(Param(p));
    assert forall t: nat :: !known.det(Tmp(t));
  }

  lemma LevelReady(space: Space, vals: Vals, ctx: Ctx, g: nat, level: Level)
    requires space.Valid() && CanEnter(space, ctx, g) && IsLevelOf(space, g, level)
    ensures BaseKnown(Know(space, vals, ctx), level) && level.base.NumComponents() > 0 && level.increment.Some?
    ensures !Know(space, vals, ctx).det(LevelReg(level))
  {
    var v := level.v;
    var j :| 0 <= j < |space.MutLevels(v)| && level == MutLevel(space, v, j) && InGroup(space, space.MutLevels(v)[j].dim, g);
    MutBaseKnown(space, vals, ctx, g, v, j);
    MutNotConst(space, v, j);
  }

  lemma SameRegister(space: Space, g: nat, a: Level, b: Level)
    requires space.WellFormed() && IsLevelOf(space, g, a) && IsLevelOf(space, g, b)
    ensures LevelReg(a) == LevelReg(b) ==> a == b
  {
    SortedLevels(space, a.v, false);
    SameLevel(space, g, a, b);
  }

  lemma SameLevel(space: Space, g: nat, a: Level, b: Level)
    requires IsLevelOf(space, g, a) && IsLevelOf(space, g, b) && DistinctMut(space, a.v)
    ensures LevelReg(a) == LevelReg(b) ==> a == b
  {
    if LevelReg(a) == LevelReg(b) {
      var j :| 0 <= j < |space.MutLevels(a.v)| && a == MutLevel(space, a.v, j);
      var k :| 0 <= k < |space.MutLevels(b.v)| && b == MutLevel(space, b.v, k);
      SameDim(space, a.v, j, k);
    }
  }

  lemma SameDim(space: Space, v: nat, j: nat, k: nat)
    requires v < |space.vars| && DistinctMut(space, v) && j < |space.MutLevels(v)| && k < |space.MutLevels(v)|
    requires space.MutLevels(v)[j].dim == space.MutLevels(v)[k].dim
    ensures j == k
  {
  }

  // ----- Unrolled loops -----

  /** The levels are at iteration `i` and the operands they started from still hold. */
  ghost predicate UnrolledAt(fun: Function, vals: Vals, ctx: Ctx, g: nat, bases: seq<Operand>, tmps: nat, regs: Regs, i: int)
    requires g < |fun.space.dims|
  {
    AtIteration(fun, vals, ctx, g, regs, i) && BasesHold(Know(fun.space, vals, ctx), tmps, regs, fun.LoopLevels(g), bases)
  }

  lemma UnrolledStartAt(fun: Function, vals: Vals, ctx: Ctx, g: nat, tmps: nat, regs: Regs)
    requires fun.Valid() && CanEnter(fun.space, ctx, g) && fun.space.dims[g].kind.Unroll? && RegInv(fun.space, vals, ctx, regs)
    ensures forall k :: 0 <= k < |fun.LoopLevels(g)| ==> fun.LoopLevels(g)[k].base.NumComponents() > 0
    ensures
      var levels := fun.LoopLevels(g);
      var regs' := UnrolledInitRegs(regs, levels, |levels|, tmps);
      && UnrolledAt(fun, vals, ctx, g, UnrolledBases(levels, |levels|, tmps), UnrolledTmps(levels, |levels|, tmps), regs', 0)
      && TmpsKept(tmps, regs, regs')
  {
    var known, levels := Know(fun.space, vals, ctx), fun.LoopLevels(g);
    LevelsReady(fun, vals, ctx, g);
    RegInvHolds(fun.space, vals, ctx, regs);
    UnrolledInitOk(known, regs, levels, |levels|, tmps);
  }

  lemma UnrolledNextAt(fun: Function, vals: Vals, ctx: Ctx, g: nat, bases: seq<Operand>, tmps: nat, regs: Regs, i: nat)
    requires fun.Valid() && CanEnter(fun.space, ctx, g) && fun.space.dims[g].kind.Unroll? && i > 0
    requires |bases| == |fun.LoopLevels(g)| && UnrolledAt(fun, vals, ctx, g, bases, tmps, regs, i - 1)
    ensures
      var regs' := UnrolledRegs(regs, fun.LoopLevels(g), bases, |bases|, i);
      UnrolledAt(fun, vals, ctx, g, bases, tmps, regs', i) && forall t: nat :: TmpsKept(t, regs, regs')
  {
    var known, levels := Know(fun.space, vals, ctx), fun.LoopLevels(g);
    LevelsReady(fun, vals, ctx, g);
    UnrolledNextOk(known, levels, bases, tmps, regs, i);
  }

  lemma UnrolledNextOk(known: Known, levels: seq<Level>, bases: seq<Operand>, tmps: nat, regs: Regs, i: nat)
    requires LevelsOk(known, levels) && |bases| == |levels| && i > 0
    requires Holds(known, regs) && LevelsAt(known, regs, levels, 0, |levels|, i - 1) && BasesHold(known, tmps, regs, levels, bases)
    ensures
      var regs' := UnrolledRegs(regs, levels, bases, |bases|, i);
      && Holds(known, regs') && LevelsAt(known, regs', levels, 0, |levels|, i)
      && BasesHold(known, tmps, regs', levels, bases) && forall t: nat :: TmpsKept(t, regs, regs')
  {
    NothingMoved(known, regs, levels, i - 1);
    UnrolledRegsOk(known, regs, levels, bases, |bases|, i, tmps);
    var regs' := UnrolledRegs(regs, levels, bases, |bases|, i);
    forall t: nat ensures TmpsKept(t, regs, regs') {
      OnlyLevelsKeepsTmps(known, regs, regs', levels, t);
    }
    BasesPersist(known, tmps, tmps, regs, regs', levels, bases);
  }

  // ----- Threads -----

  /** A block of threads only computes the variables that no loop updates. */
  lemma ThreadLevel(fun: Function, active: seq<Option<nat>>, level: Level)
    requires fun.Valid() && ActiveOk(fun, active) && level in fun.ThreadLevels(active)
    ensures level.v < |fun.space.vars| && ComputedElsewhere(fun.space, level.v) && level == ElsewhereLevel(fun.space, level.v)
  {
    var ids := fun.ActiveIds(active);
    LevelsOfDimsContains(fun.table, ids, level);
    var k :| 0 <= k < |ids| && (ids[k], level) in fun.table;
    var e := (ids[k], level);
    assert fun.space.group[e.0] in fun.threadDims;
    assert fun.space.IsConst(e.0);
    EntryKeyed(fun.space, e);
    EntryOfParallel(fun.space, e);
  }

  lemma ElsewhereRegistered(fun: Function, active: seq<Option<nat>>, v: nat, k: nat)
    requires fun.Valid() && ActiveOk(fun, active) && v < |fun.space.vars| && ComputedElsewhere(fun.space, v)
    requires k < |fun.ActiveIds(active)| && fun.ActiveIds(active)[k] == LastDim(fun.space.ConstLevels(v)).value
    ensures ElsewhereLevel(fun.space, v) in fun.ThreadLevels(active)
  {
    EntryKeyed(fun.space, (fun.ActiveIds(active)[k], ElsewhereLevel(fun.space, v)));
    LevelsOfDimsContains(fun.table, fun.ActiveIds(active), ElsewhereLevel(fun.space, v));
  }

  /** The level of a variable computed elsewhere adds its base to its last parallel level. */
  lemma ElsewhereSound(space: Space, vals: Vals, ctx: Ctx, levels: seq<Level>, k: nat)
    requires k < |levels| && levels[k].v < |space.vars|
    requires ComputedElsewhere(space, levels[k].v) && levels[k] == ElsewhereLevel(space, levels[k].v)
    ensures ParallelPrintable(levels[k]) && ParallelSound(Know(space, vals, ctx), space, levels, k)
  {
    var v := levels[k].v;
    LastConst(space, vals, ctx.env, v);
    assert KnownOrEarlier(Know(space, vals, ctx), levels, k, LevelOf(v, LastDim(space.ConstLevels(v)).value));
  }

  lemma ThreadsRegs(fun: Function, vals: Vals, active: seq<Option<nat>>, names: Names, ctx: Ctx, regs: Regs)
    requires fun.Valid() && ActiveOk(fun, active) && CtxOk(fun.space, ctx) && RegInv(fun.space, vals, ctx, regs)
    ensures forall k :: 0 <= k < |fun.ThreadLevels(active)| ==> ParallelPrintable(fun.ThreadLevels(active)[k])
    ensures
      var known, levels := Know(fun.space, vals, ctx), fun.ThreadLevels(active);
      var guarded := GuardRegs(fun, active, |active|, names, regs);
      var e := GuardCode(fun, active, |active|, names).names;
      && GuardReady(known, regs, guarded, fun, active, |active|, names.tmps, e.guard, e.tmps)
      && ParallelReady(known, guarded, ParallelRegs(guarded, fun.space, levels, |levels|), levels, |levels|)
  {
    var known, levels := Know(fun.space, vals, ctx), fun.ThreadLevels(active);
    RegInvHolds(fun.space, vals, ctx, regs);
    assert forall t: nat :: !known.det(Tmp(t));
    assert forall p: nat :: known.det(Param(p));
    forall k | 0 <= k < |active| ensures known.det(Index(fun.threadDims[k])) {
      assert fun.space.dims[fun.threadDims[k]].kind.Thread?;
    }
    GuardOk(known, fun, active, |active|, names, regs);
    forall k | 0 <= k < |levels| ensures ParallelPrintable(levels[k]) && ParallelSound(known, fun.space, levels, k) {
      ThreadLevel(fun, active, levels[k]);
      ElsewhereSound(fun.space, vals, ctx, levels, k);
    }
    ParallelRegsOk(known, GuardRegs(fun, active, |active|, names, regs), fun.space, levels, |levels|);
  }

  /** Inside a block of threads, the variables computed there are determined as well. */
  lemma ThreadsDetermined(fun: Function, vals: Vals, active: seq<Option<nat>>, ctx: Ctx, r: Reg)
    requires fun.Valid() && ActiveOk(fun, active) && ctx.active == {}
    requires Determined(fun.space, EnterThreads(fun, active, ctx), r)
    ensures KnownOrEarlier(Know(fun.space, vals, ctx), fun.ThreadLevels(active), |fun.ThreadLevels(active)|, r)
  {
    if !Determined(fun.space, ctx, r) {
      var last := LastDim(fun.space.ConstLevels(r.v)).value;
      var k :| 0 <= k < |fun.ActiveIds(active)| && fun.ActiveIds(active)[k] == last;
      ElsewhereRegistered(fun, active, r.v, k);
      var levels := fun.ThreadLevels(active);
      var a :| 0 <= a < |levels| && levels[a] == ElsewhereLevel(fun.space, r.v);
      assert LevelReg(levels[a]) == r;
    }
  }

  lemma EffectIs(fun: Function, vals: Vals, active: seq<Option<nat>>, ctx: Ctx)
    requires |active| == |fun.threadDims|
    ensures AllZero(Know(fun.space, vals, ctx), fun, active, |active|) <==> EnterThreads(fun, active, ctx).effect
  {
  }

  lemma EnterThreadsReady(fun: Function, vals: Vals, active: seq<Option<nat>>, names: Names, ctx: Ctx, regs: Regs)
    requires fun.Valid() && ActiveOk(fun, active) && CtxOk(fun.space, ctx) && ctx.active == {} && RegInv(fun.space, vals, ctx, regs)
    ensures forall k :: 0 <= k < |fun.ThreadLevels(active)| ==> ParallelPrintable(fun.ThreadLevels(active)[k])
    ensures
      var levels := fun.ThreadLevels(active);
      var regs' := ParallelRegs(GuardRegs(fun, active, |active|, names, regs), fun.space, levels, |levels|);
      && RegInv(fun.space, vals, EnterThreads(fun, active, ctx), regs')
      && GuardHolds(GuardCode(fun, active, |active|, names).names, EnterThreads(fun, active, ctx), regs')
      && TmpsKept(names.tmps, regs, regs')
  {
    var levels, inner := fun.ThreadLevels(active), EnterThreads(fun, active, ctx);
    ThreadsRegs(fun, vals, active, names, ctx, regs);
    var regs' := ParallelRegs(GuardRegs(fun, active, |active|, names, regs), fun.space, levels, |levels|);
    forall r | Determined(fun.space, inner, r) ensures Get(regs', r) == Expect(fun.space, vals, inner.env, r) {
      ThreadsDetermined(fun, vals, active, ctx, r);
    }
    EffectIs(fun, vals, active, ctx);
  }

  lemma LeaveThreadsRegs(fun: Function, vals: Vals, active: seq<Option<nat>>, ctx: Ctx, regs: Regs)
    requires ctx.active == {} && RegInv(fun.space, vals, EnterThreads(fun, active, ctx), regs)
    ensures RegInv(fun.space, vals, ctx, regs)
  {
    forall r | Determined(fun.space, ctx, r) ensures Get(regs, r) == Expect(fun.space, vals, ctx.env, r) {
      assert Determined(fun.space, EnterThreads(fun, active, ctx), r);
    }
  }
}
