/**
 Dimensions of one induction variable that were fused into one loop. The levels of the
 variable form a chain, but a level that advances does not carry the others along: the loop
 stays right if and only if the outer ones do not advance.
 */
module FusedLoops {
  import opened Wrappers
  import opened Sequences
  import opened InductionVars
  import opened InductionLevels
  import opened LoopCode
  import opened StraightCode
  import opened LoopMeaning
  import opened LoopCorrect

  function LevelsOf(space: Space, g: nat): seq<Level>
    requires g < |space.dims|
  {
    LevelsOfDims(LevelTable(space, |space.vars|), space.dims[g].ids)
  }

  /** What one iteration of the loop over `g` adds to index times increment. */
  function StepsAlong(space: Space, vals: Vals, g: nat, incs: seq<Increment>): int {
    if incs == [] then 0
    else
      var inc := incs[|incs| - 1];
      StepsAlong(space, vals, g, incs[..|incs| - 1]) + if space.Group(inc.dim) == g then SizeOf(vals, inc.step) else 0
  }

  lemma {:induction false} SumNext(space: Space, vals: Vals, env: map<nat, int>, incs: seq<Increment>, g: nat, i: int)
    ensures Sum(space, vals, env[g := i + 1], incs) == Sum(space, vals, env[g := i], incs) + StepsAlong(space, vals, g, incs)
  {
    if incs != [] {
      SumNext(space, vals, env, incs[..|incs| - 1], g, i);
      TermNext(space, vals, env, incs[|incs| - 1], g, i);
    }
  }

  lemma TermNext(space: Space, vals: Vals, env: map<nat, int>, inc: Increment, g: nat, i: int)
    ensures Term(space, vals, env[g := i + 1], inc) ==
            Term(space, vals, env[g := i], inc) + if space.Group(inc.dim) == g then SizeOf(vals, inc.step) else 0
  {
    if space.Group(inc.dim) == g {
      assert (i + 1) * SizeOf(vals, inc.step) == i * SizeOf(vals, inc.step) + SizeOf(vals, inc.step);
    }
  }

  /** The registers of the levels of a loop are distinct. */
  ghost predicate RegsApart(levels: seq<Level>) {
    && (forall k :: 0 <= k < |levels| ==> levels[k].increment.Some?)
    && forall a, b :: 0 <= a < b < |levels| ==> LevelReg(levels[a]) != LevelReg(levels[b])
  }

  lemma LoopRegsApart(space: Space, g: nat)
    requires space.WellFormed() && g < |space.dims| && (space.dims[g].kind.Loop? || space.dims[g].kind.Unroll?)
    ensures RegsApart(LevelsOf(space, g))
  {
    var levels := LevelsOf(space, g);
    LoopLevelsComplete(space, g);
    RegistersApart(space, g);
    forall k | 0 <= k < |levels| ensures levels[k].increment.Some? {
      assert IsLevelOf(space, g, levels[k]);
    }
  }

  /** Advancing the levels adds to each its own step. */
  lemma {:induction false} AdvanceAddsStep(regs: Regs, levels: seq<Level>, n: nat, k: nat)
    requires RegsApart(levels) && n <= |levels| && k < |levels|
    ensures forall p :: Get(AdvanceRegs(regs, levels, n), Param(p)) == Get(regs, Param(p))
    ensures Get(AdvanceRegs(regs, levels, n), LevelReg(levels[k])) ==
            Get(regs, LevelReg(levels[k])) + if k < n then Eval(regs, NameSize(levels[k].increment.value.step)) else 0
  {
    if n > 0 {
      AdvanceAddsStep(regs, levels, n - 1, k);
    }
  }

  /** All the levels of the loop around a variable's last one. */
  function Others(incs: seq<Increment>): seq<Increment>
    requires incs != []
  {
    incs[..|incs| - 1]
  }

  /**
   The code at the end of a loop keeps the value of a variable right if and only if the other
   sequential dimensions of the variable that are fused into the loop have increments of sum zero.
   */
  lemma FusedAdvanceIff(space: Space, vals: Vals, g: nat, regs: Regs, env: map<nat, int>, i: int, v: nat)
    requires space.WellFormed() && g < |space.dims| && space.dims[g].kind.Loop? && v < |space.vars|
    requires space.MutLevels(v) != [] && InGroup(space, LastDim(space.MutLevels(v)).value, g)
    requires forall p :: Get(regs, Param(p)) == vals.params(p)
    requires Get(regs, LevelOf(v, LastDim(space.MutLevels(v)).value)) ==
             vals.base(v) + ScalarSum(space, vals, env[g := i], space.vars[v])
    ensures
      var regs' := AdvanceRegs(regs, LevelsOf(space, g), |LevelsOf(space, g)|);
      Get(regs', LevelOf(v, LastDim(space.MutLevels(v)).value)) ==
      vals.base(v) + ScalarSum(space, vals, env[g := i + 1], space.vars[v])
      <==> StepsAlong(space, vals, g, Others(space.MutLevels(v))) == 0
  {
    LastAdvances(space, g, regs, v);
    ValueNext(space, vals, g, env, i, v);
  }

  /** The code at the end of a loop adds to the last level of a variable its own step. */
  lemma LastAdvances(space: Space, g: nat, regs: Regs, v: nat)
    requires space.WellFormed() && g < |space.dims| && space.dims[g].kind.Loop? && v < |space.vars|
    requires space.MutLevels(v) != [] && InGroup(space, LastDim(space.MutLevels(v)).value, g)
    ensures
      var last := space.MutLevels(v)[|space.MutLevels(v)| - 1];
      Get(AdvanceRegs(regs, LevelsOf(space, g), |LevelsOf(space, g)|), LevelOf(v, last.dim)) ==
      Get(regs, LevelOf(v, last.dim)) + Eval(regs, NameSize(last.step))
  {
    var level, levels := MutLevel(space, v, |space.MutLevels(v)| - 1), LevelsOf(space, g);
    LoopLevelsComplete(space, g);
    LoopRegsApart(space, g);
    assert level in levels;
    var k :| 0 <= k < |levels| && levels[k] == level;
    AdvanceAddsStep(regs, levels, |levels|, k);
  }

  /** An iteration adds to the value of a variable its increments along the loop. */
  lemma ValueNext(space: Space, vals: Vals, g: nat, env: map<nat, int>, i: int, v: nat)
    requires space.WellFormed() && g < |space.dims| && space.dims[g].kind.Loop? && v < |space.vars|
    ensures ScalarSum(space, vals, env[g := i + 1], space.vars[v]) ==
            ScalarSum(space, vals, env[g := i], space.vars[v]) + StepsAlong(space, vals, g, space.MutLevels(v))
  {
    var consts, muts := space.ConstLevels(v), space.MutLevels(v);
    ScalarSumIs(space, vals, env[g := i], v);
    ScalarSumIs(space, vals, env[g := i + 1], v);
    SumNext(space, vals, env, muts, g, i);
    SortedLevels(space, v, true);
    forall a | 0 <= a < |consts| ensures space.Group(consts[a].dim) != g {
      assert space.IsConst(consts[a].dim);
    }
    SumFrame(space, vals, env[g := i], consts, g, i + 1);
    assert env[g := i][g := i + 1] == env[g := i + 1];
  }

  lemma {:induction false} StepsPositive(space: Space, vals: Vals, g: nat, incs: seq<Increment>)
    requires forall k :: 0 <= k < |incs| ==> SizeOf(vals, incs[k].step) > 0
    ensures StepsAlong(space, vals, g, incs) >= 0
    ensures StepsAlong(space, vals, g, incs) == 0 <==> forall k :: 0 <= k < |incs| ==> space.Group(incs[k].dim) != g
  {
    if incs != [] {
      StepsPositive(space, vals, g, incs[..|incs| - 1]);
      assert incs[|incs| - 1] in incs;
    }
  }

  // ----- A kernel that goes wrong -----

  const INCS := [Increment(0, Const(1)), Increment(1, Const(1))]

  /** One variable, two dimensions of two iterations fused into one loop. */
  const FUSED := Space([Dimension([0, 1], Kind.Loop, Const(2))], map[0 := 0, 1 := 0], {}, [INCS])

  lemma FusedKinds()
    ensures FUSED.IsMut(0) && FUSED.IsMut(1) && !FUSED.IsConst(0) && !FUSED.IsConst(1)
    ensures FUSED.InOrder(0, 1) && !FUSED.LoopsApart()
  {
    assert FUSED.IsMut(FUSED.vars[0][0].dim) && FUSED.IsMut(FUSED.vars[0][1].dim);
  }

  lemma FusedLevels()
    ensures FUSED.Select(INCS, false) == INCS && FUSED.Select(INCS, true) == []
    ensures FUSED.MutLevels(0) == INCS && FUSED.ConstLevels(0) == []
  {
    FusedKinds();
    assert INCS[..1] == [INCS[0]] && INCS[..1][..0] == [];
    assert FUSED.Select(INCS[..1], false) == [INCS[0]] && FUSED.Select(INCS[..1], true) == [];
    assert FUSED.SortOuterFirst(INCS[..1]) == [INCS[0]];
  }

  lemma FusedVar()
    requires FUSED.InOrder(0, 1) && FUSED.Select(INCS, false) == INCS && FUSED.Select(INCS, true) == []
    ensures FUSED.VarValid(INCS)
  {
    assert FUSED.Comparable(INCS);
  }

  lemma FusedSpace()
    ensures FUSED.WellFormed()
  {
    FusedKinds();
    FusedLevels();
    FusedVar();
  }

  const OUTER_LEVEL := Level(0, Some(INCS[0]), Value(None, true))
  const INNER_LEVEL := Level(0, Some(INCS[1]), Value(Some(0), false))

  lemma FlattenOne<T>(part: seq<T>)
    ensures Flatten([part]) == part
  {
    assert Flatten([part][..0]) == [];
  }

  lemma FusedTable()
    ensures Precomputed(FUSED, 1) == [] && LevelTable(FUSED, 1) == [(0, OUTER_LEVEL), (1, INNER_LEVEL)]
    ensures LevelsOf(FUSED, 0) == [OUTER_LEVEL, INNER_LEVEL]
  {
    FusedLevels();
    var table := [(0, OUTER_LEVEL), (1, INNER_LEVEL)];
    assert VarTable(FUSED, 0) == table;
    assert Tables(FUSED, 1) == [table];
    assert PrecomputedParts(FUSED, 1) == [[]];
    FlattenOne(table);
    FlattenOne<Level>([]);
    assert table[..1] == [(0, OUTER_LEVEL)];
    assert LevelsFor(table[..1], 0) == [OUTER_LEVEL] && LevelsFor(table[..1], 1) == [];
    assert LevelsFor(table, 0) == [OUTER_LEVEL] && LevelsFor(table, 1) == [INNER_LEVEL];
    assert [0, 1][..1] == [0] && [0][..0] == [];
    assert LevelsOfDims(table, [0]) == [OUTER_LEVEL];
  }

  const KERNEL := Function(FUSED, [], [], map[], [], [(0, OUTER_LEVEL), (1, INNER_LEVEL)])
  const NEST := Cfg.Loop(0, [Inst(0)])
  const NAMES := Names(0, 0, map[], None)
  const TURN := [Add(LevelOf(0, 0), R(LevelOf(0, 0)), Lit(1)), Add(LevelOf(0, 1), R(LevelOf(0, 1)), Lit(1))]
  const CODE := [Mov(Index(0), Lit(0)), Mov(LevelOf(0, 0), R(Base(0))), Mov(LevelOf(0, 1), R(LevelOf(0, 0))), Label(0),
                 Exec(0, map[], None)] + TURN +
                [Add(Index(0), R(Index(0)), Lit(1)), Lt(Tmp(0), R(Index(0)), Lit(2)), JumpIf(0, Tmp(0))]

  lemma FusedCode()
    ensures KERNEL.LoopLevels(0) == [OUTER_LEVEL, INNER_LEVEL] && KERNEL.InitLevels() == []
    ensures KERNEL.precomputed == Precomputed(FUSED, 1) && KERNEL.table == LevelTable(FUSED, 1)
    ensures KERNEL.Printable(NEST) && KernelCode(KERNEL, NEST, NAMES).code == CODE
  {
    FusedTable();
    var levels := [OUTER_LEVEL, INNER_LEVEL];
    assert KERNEL.LoopLevels(0) == levels;
    assert KERNEL.BlockParts() == [];
    assert InitCode(levels, 1) == [Mov(LevelOf(0, 0), R(Base(0)))];
    assert InitCode(levels, 2) == [Mov(LevelOf(0, 0), R(Base(0))), Mov(LevelOf(0, 1), R(LevelOf(0, 0)))];
    assert AdvanceCode(levels, 1) == TURN[..1];
    assert AdvanceCode(levels, 2) == TURN;
    assert [Inst(0)][..0] == [];
    assert BodyCode(KERNEL, [Inst(0)], NAMES.(labels := 1)).code == [Exec(0, map[], None)];
  }

  /** The printed code of the fused kernel reads base + 1 where the nest asks for base + 2. */
  lemma FusedKernelWrong(vals: Vals, regs: Regs)
    requires Get(regs, Base(0)) == vals.base(0)
    ensures KERNEL.precomputed == Precomputed(FUSED, 1) && KERNEL.table == LevelTable(FUSED, 1) && KERNEL.InitLevels() == []
    ensures KERNEL.Printable(NEST) && KernelCode(KERNEL, NEST, NAMES).code == CODE
    ensures
      var m := Steps(CODE, Machine(0, regs, []), 12);
      && |m.trace| == 2 && m.trace[1].Ran?
      && Eval(m.trace[1].regs, NameInductionVar(FUSED, 0)) == vals.base(0) + 1
    ensures RefTrace(KERNEL, vals, NEST, Ctx(map[], {}, false, true))[1] == Did(0, Ctx(map[0 := 1], {}, false, true))
    ensures vals.base(0) + ScalarSum(FUSED, vals, map[0 := 1], FUSED.vars[0]) == vals.base(0) + 2
  {
    FusedCode();
    FusedRun(regs, vals.base(0));
    FusedReference(vals);
    FusedLevels();
  }

  lemma FusedReference(vals: Vals)
    ensures KERNEL.Printable(NEST) && RefTrace(KERNEL, vals, NEST, Ctx(map[], {}, false, true))[1] == Did(0, Ctx(map[0 := 1], {}, false, true))
    ensures ScalarSum(FUSED, vals, map[0 := 1], FUSED.vars[0]) == 2
  {
    FusedCode();
    FusedKinds();
    assert INCS[..1] == [INCS[0]] && INCS[..1][..0] == [];
    assert ScalarSum(FUSED, vals, map[0 := 1], INCS[..1]) == 1;
    var ctx := Ctx(map[], {}, false, true);
    assert [Inst(0)][..0] == [];
    assert RefIterations(KERNEL, vals, 0, [Inst(0)], ctx, 1) == [Did(0, EnterLoop(ctx, 0, 0))];
    assert RefIterations(KERNEL, vals, 0, [Inst(0)], ctx, 2)[1] == Did(0, EnterLoop(ctx, 0, 1));
  }

  lemma FusedRun(regs: Regs, base: int)
    requires Get(regs, Base(0)) == base
    ensures
      var m := Steps(CODE, Machine(0, regs, []), 12);
      |m.trace| == 2 && m.trace[1].Ran? && Get(m.trace[1].regs, LevelOf(0, 1)) == base + 1
  {
    var m0 := Machine(0, regs, []);
    var m2 := Step(CODE, Step(CODE, m0));
    assert m2.pc == 2 && m2.trace == [] && Get(m2.regs, LevelOf(0, 0)) == base && Get(m2.regs, Index(0)) == 0;
    var m4 := Step(CODE, Step(CODE, m2));
    assert m4.pc == 4 && m4.trace == [] && Get(m4.regs, LevelOf(0, 1)) == base && Get(m4.regs, Index(0)) == 0;
    assert Steps(CODE, m2, 10) == Steps(CODE, m4, 8);
    assert Steps(CODE, m0, 12) == Steps(CODE, m2, 10);
    FusedTurn(m4, base);
  }

  lemma FusedTurn(m: Machine, base: int)
    requires m.pc == 4 && m.trace == [] && Get(m.regs, LevelOf(0, 1)) == base && Get(m.regs, Index(0)) == 0
    ensures
      var m' := Steps(CODE, m, 8);
      |m'.trace| == 2 && m'.trace[1].Ran? && Get(m'.trace[1].regs, LevelOf(0, 1)) == base + 1
  {
    var m1 := Step(CODE, m);
    var m3 := Step(CODE, Step(CODE, m1));
    assert m3.pc == 7 && |m3.trace| == 1 && Get(m3.regs, LevelOf(0, 1)) == base + 1 && Get(m3.regs, Index(0)) == 0;
    assert Steps(CODE, m, 8) == Steps(CODE, m3, 5);
    FusedJump(m3, base + 1);
  }

  lemma FusedJump(m: Machine, x: int)
    requires m.pc == 7 && |m.trace| == 1 && Get(m.regs, LevelOf(0, 1)) == x && Get(m.regs, Index(0)) == 0
    ensures
      var m' := Steps(CODE, m, 5);
      |m'.trace| == 2 && m'.trace[1].Ran? && Get(m'.trace[1].regs, LevelOf(0, 1)) == x
  {
    var m3 := Step(CODE, Step(CODE, Step(CODE, m)));
    assert CODE[3] == Label(0) && CODE[0] != Label(0) && CODE[1] != Label(0) && CODE[2] != Label(0);
    assert Find(CODE, 0) == 3;
    assert m3.pc == 3 && m3.trace == m.trace && Get(m3.regs, LevelOf(0, 1)) == x;
    assert Steps(CODE, m, 5) == Steps(CODE, m3, 2);
  }
}
