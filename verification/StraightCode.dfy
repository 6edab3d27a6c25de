/** Straight-line code: running it folds its instructions over the registers. */
module StraightCode {
  import opened Wrappers
  import opened InductionVars
  import opened LoopCode

  // ----- Reaching a state -----

  ghost predicate Reaches(code: seq<Instr>, m: Machine, m': Machine) {
    exists n: nat :: Steps(code, m, n) == m'
  }

  lemma {:induction false} StepsAdd(code: seq<Instr>, m: Machine, a: nat, b: nat)
    ensures Steps(code, m, a + b) == Steps(code, Steps(code, m, a), b)
    decreases a
  {
    if a > 0 && m.pc < |code| {
      StepsAdd(code, Step(code, m), a - 1, b);
    } else if m.pc >= |code| {
      assert Steps(code, m, a) == m;
    }
  }

  lemma ReachesTrans(code: seq<Instr>, m: Machine, m': Machine, m'': Machine)
    requires Reaches(code, m, m') && Reaches(code, m', m'')
    ensures Reaches(code, m, m'')
  {
    var a: nat :| Steps(code, m, a) == m';
    var b: nat :| Steps(code, m', b) == m'';
    StepsAdd(code, m, a, b);
  }

  lemma ReachesStep(code: seq<Instr>, m: Machine)
    requires m.pc < |code|
    ensures Reaches(code, m, Step(code, m))
  {
    assert Steps(code, Step(code, m), 0) == Step(code, m);
    assert Steps(code, m, 1) == Step(code, m);
  }

  lemma ReachesSelf(code: seq<Instr>, m: Machine)
    ensures Reaches(code, m, m)
  {
    assert Steps(code, m, 0) == m;
  }

  // ----- Fragments -----

  ghost predicate At(code: seq<Instr>, p: nat, frag: seq<Instr>) {
    p + |frag| <= |code| && code[p..p + |frag|] == frag
  }

  lemma AtConcat(code: seq<Instr>, p: nat, a: seq<Instr>, b: seq<Instr>)
    requires At(code, p, a + b)
    ensures At(code, p, a) && At(code, p + |a|, b)
  {
    assert code[p..p + |a|] == (a + b)[..|a|];
    assert code[p + |a|..p + |a| + |b|] == (a + b)[|a|..];
  }

  predicate IsArith(i: Instr) {
    i.Mov? || i.Add? || i.Mul? || i.Mad? || i.Lt? || i.Eq? || i.And?
  }

  function Apply(regs: Regs, i: Instr): Regs
    requires IsArith(i)
  {
    regs[i.dst := Result(regs, i)]
  }

  /** Running the fragment at `p` turns `regs` into `regs'` and records nothing. */
  ghost predicate Runs(code: seq<Instr>, p: nat, frag: seq<Instr>, regs: Regs, regs': Regs, trace: seq<Event>) {
    Reaches(code, Machine(p, regs, trace), Machine(p + |frag|, regs', trace))
  }

  lemma RunsEmpty(code: seq<Instr>, p: nat, regs: Regs, trace: seq<Event>)
    ensures Runs(code, p, [], regs, regs, trace)
  {
    ReachesSelf(code, Machine(p, regs, trace));
  }

  /** One more arithmetic instruction. */
  lemma RunsThen(code: seq<Instr>, p: nat, frag: seq<Instr>, i: Instr, regs: Regs, regs': Regs, trace: seq<Event>)
    requires At(code, p, frag + [i]) && IsArith(i) && Runs(code, p, frag, regs, regs', trace)
    ensures Runs(code, p, frag + [i], regs, Apply(regs', i), trace)
  {
    AtConcat(code, p, frag, [i]);
    var m := Machine(p + |frag|, regs', trace);
    assert code[m.pc] == i;
    ReachesStep(code, m);
    ReachesTrans(code, Machine(p, regs, trace), m, Step(code, m));
  }

  lemma RunsConcat(code: seq<Instr>, p: nat, a: seq<Instr>, b: seq<Instr>, regs: Regs, regs': Regs, regs'': Regs, trace: seq<Event>)
    requires Runs(code, p, a, regs, regs', trace) && Runs(code, p + |a|, b, regs', regs'', trace)
    ensures Runs(code, p, a + b, regs, regs'', trace)
  {
    ReachesTrans(code, Machine(p, regs, trace), Machine(p + |a|, regs', trace), Machine(p + |a| + |b|, regs'', trace));
  }

  // ----- The registers a fragment leaves -----

  /** The registers known at some point, with their values. */
  datatype Known = Known(det: Reg -> bool, value: Reg -> int)

  ghost predicate Holds(known: Known, regs: Regs) {
    forall r :: known.det(r) ==> Get(regs, r) == known.value(r)
  }

  /** The value a level starts from. */
  function Start(known: Known, level: Level): int {
    (match level.base.outer case None => 0 case Some(d) => known.value(LevelOf(level.v, d))) +
    if level.base.operand then known.value(Base(level.v)) else 0
  }

  function StepSize(known: Known, size: Size): int {
    match size
    case Const(n) => n
    case Sym(p) => known.value(Param(p))
  }

  function StepOf(known: Known, level: Level): int {
    match level.increment
    case None => 0
    case Some(inc) => StepSize(known, inc.step)
  }

  predicate BaseKnown(known: Known, level: Level) {
    known.det(Base(level.v)) && (level.base.outer.Some? ==> known.det(LevelOf(level.v, level.base.outer.value)))
  }

  lemma WriteKeeps(known: Known, regs: Regs, r: Reg, x: int)
    requires Holds(known, regs) && !known.det(r)
    ensures Holds(known, regs[r := x])
  {
  }

  /** Adding the components of a level gives the value it starts from. */
  lemma EvalComponents(known: Known, regs: Regs, level: Level, dst: Reg)
    requires Holds(known, regs) && BaseKnown(known, level) && level.base.NumComponents() > 0
    ensures Result(regs, AssignCode(dst, Components(level.v, level.base))) == Start(known, level)
  {
  }

  /** Levels that can be computed here, each in a register of its own that nothing else uses. */
  ghost predicate LevelsOk(known: Known, levels: seq<Level>) {
    && (forall p: nat :: known.det(Param(p)))
    && (forall t: nat :: !known.det(Tmp(t)))
    && (forall k :: 0 <= k < |levels| ==>
          BaseKnown(known, levels[k]) && levels[k].base.NumComponents() > 0 &&
          !known.det(LevelReg(levels[k])) && levels[k].increment.Some?)
    && (forall a, b :: 0 <= a < b < |levels| ==> LevelReg(levels[a]) != LevelReg(levels[b]))
  }

  /** The level holds its value for iteration `i`. */
  predicate LevelAt(known: Known, regs: Regs, level: Level, i: int) {
    Get(regs, LevelReg(level)) == Start(known, level) + i * StepOf(known, level)
  }

  /** The levels from `lo` to `hi` hold their value for iteration `i`. */
  ghost predicate LevelsAt(known: Known, regs: Regs, levels: seq<Level>, lo: nat, hi: nat, i: int) {
    forall k :: lo <= k < hi && k < |levels| ==> LevelAt(known, regs, levels[k], i)
  }

  predicate IsLevelReg(levels: seq<Level>, r: Reg) {
    exists k :: 0 <= k < |levels| && LevelReg(levels[k]) == r
  }

  /** Registers that hold no level of the list are unchanged. */
  ghost predicate OnlyLevels(regs: Regs, regs': Regs, levels: seq<Level>) {
    forall r :: !IsLevelReg(levels, r) ==> Get(regs', r) == Get(regs, r)
  }

  /** The first `n` levels were initialised and nothing else changed. */
  ghost predicate Initialised(known: Known, start: Regs, regs: Regs, levels: seq<Level>, n: nat) {
    Holds(known, regs) && LevelsAt(known, regs, levels, 0, n, 0) && OnlyLevels(start, regs, levels)
  }

  function InitInstr(level: Level): Instr
    requires level.base.NumComponents() > 0
  {
    AssignCode(LevelReg(level), Components(level.v, level.base))
  }

  /** The registers once the first `n` levels are initialised. */
  function InitRegs(regs: Regs, levels: seq<Level>, n: nat): Regs
    requires n <= |levels| && forall k :: 0 <= k < n ==> levels[k].base.NumComponents() > 0
  {
    if n == 0 then regs else Apply(InitRegs(regs, levels, n - 1), InitInstr(levels[n - 1]))
  }

  lemma {:induction false} RunInit(code: seq<Instr>, p: nat, regs: Regs, levels: seq<Level>, n: nat, trace: seq<Event>)
    requires n <= |levels| && forall k :: 0 <= k < n ==> levels[k].base.NumComponents() > 0
    requires At(code, p, InitCode(levels, n))
    ensures Runs(code, p, InitCode(levels, n), regs, InitRegs(regs, levels, n), trace)
  {
    if n == 0 {
      RunsEmpty(code, p, regs, trace);
    } else {
      AtConcat(code, p, InitCode(levels, n - 1), [InitInstr(levels[n - 1])]);
      RunInit(code, p, regs, levels, n - 1, trace);
      RunsThen(code, p, InitCode(levels, n - 1), InitInstr(levels[n - 1]), regs, InitRegs(regs, levels, n - 1), trace);
    }
  }

  lemma {:induction false} InitRegsOk(known: Known, regs: Regs, levels: seq<Level>, n: nat)
    requires Holds(known, regs) && LevelsOk(known, levels) && n <= |levels|
    ensures Initialised(known, regs, InitRegs(regs, levels, n), levels, n)
  {
    if n > 0 {
      InitRegsOk(known, regs, levels, n - 1);
      InitStep(known, regs, InitRegs(regs, levels, n - 1), levels, n - 1);
    }
  }

  lemma InitStep(known: Known, start: Regs, regs: Regs, levels: seq<Level>, n: nat)
    requires LevelsOk(known, levels) && n < |levels| && Initialised(known, start, regs, levels, n)
    ensures
      var i := AssignCode(LevelReg(levels[n]), Components(levels[n].v, levels[n].base));
      Initialised(known, start, regs[i.dst := Result(regs, i)], levels, n + 1)
  {
    var level := levels[n];
    EvalComponents(known, regs, level, LevelReg(level));
    SetLevel(known, start, regs, levels, n, Start(known, level), 0);
  }

  /** Levels below `n` are at iteration `i`, and writing the `n`-th one brings it there. */
  lemma SetLevel(known: Known, start: Regs, regs: Regs, levels: seq<Level>, n: nat, x: int, i: int)
    requires Holds(known, regs) && LevelsOk(known, levels) && n < |levels|
    requires x == Start(known, levels[n]) + i * StepOf(known, levels[n])
    requires LevelsAt(known, regs, levels, 0, n, i) && OnlyLevels(start, regs, levels)
    ensures Holds(known, regs[LevelReg(levels[n]) := x])
    ensures LevelsAt(known, regs[LevelReg(levels[n]) := x], levels, 0, n + 1, i)
    ensures OnlyLevels(start, regs[LevelReg(levels[n]) := x], levels)
  {
    WriteKeeps(known, regs, LevelReg(levels[n]), x);
    var regs' := regs[LevelReg(levels[n]) := x];
    forall k | 0 <= k < n + 1 ensures LevelAt(known, regs', levels[k], i) {
      assert k < n ==> LevelAt(known, regs, levels[k], i);
    }
    forall r | !IsLevelReg(levels, r) ensures Get(regs', r) == Get(start, r) {
      assert r != LevelReg(levels[n]);
    }
  }

  /** Writing the `n`-th level leaves the later ones at iteration `j`. */
  lemma SetLevelKeepsLater(known: Known, regs: Regs, levels: seq<Level>, n: nat, x: int, j: int)
    requires LevelsOk(known, levels) && n < |levels|
    requires LevelsAt(known, regs, levels, n, |levels|, j)
    ensures LevelsAt(known, regs[LevelReg(levels[n]) := x], levels, n + 1, |levels|, j)
  {
    forall k | n < k < |levels| ensures LevelAt(known, regs[LevelReg(levels[n]) := x], levels[k], j) {
      assert LevelAt(known, regs, levels[k], j);
    }
  }

  lemma EvalSize(known: Known, regs: Regs, size: Size)
    requires Holds(known, regs) && forall p: nat :: known.det(Param(p))
    ensures Eval(regs, NameSize(size)) == StepSize(known, size)
  {
  }

  /** The first `n` levels already reached iteration `i`; the others are one step behind. */
  ghost predicate Advancing(known: Known, start: Regs, regs: Regs, levels: seq<Level>, n: nat, i: int) {
    && Holds(known, regs)
    && LevelsAt(known, regs, levels, 0, n, i)
    && LevelsAt(known, regs, levels, n, |levels|, i - 1)
    && OnlyLevels(start, regs, levels)
  }

  /** The levels advance one by one when each instruction stores its next value. */
  lemma AdvanceOne(known: Known, start: Regs, regs: Regs, levels: seq<Level>, n: nat, i: int, x: int)
    requires LevelsOk(known, levels) && n < |levels|
    requires Advancing(known, start, regs, levels, n, i)
    requires x == Start(known, levels[n]) + i * StepOf(known, levels[n])
    ensures Advancing(known, start, regs[LevelReg(levels[n]) := x], levels, n + 1, i)
  {
    SetLevel(known, start, regs, levels, n, x, i);
    SetLevelKeepsLater(known, regs, levels, n, x, i - 1);
  }

  lemma AdvanceResult(known: Known, start: Regs, regs: Regs, levels: seq<Level>, n: nat, i: int)
    requires LevelsOk(known, levels) && n < |levels|
    requires Advancing(known, start, regs, levels, n, i)
    ensures Result(regs, AdvanceInstr(levels[n])) == Start(known, levels[n]) + i * StepOf(known, levels[n])
  {
    EvalSize(known, regs, levels[n].increment.value.step);
    assert LevelAt(known, regs, levels[n], i - 1);
    assert (i - 1) * StepOf(known, levels[n]) + StepOf(known, levels[n]) == i * StepOf(known, levels[n]);
  }

  function AdvanceRegs(regs: Regs, levels: seq<Level>, n: nat): Regs
    requires n <= |levels|
  {
    if n == 0 then regs
    else if levels[n - 1].increment.None? then AdvanceRegs(regs, levels, n - 1)
    else Apply(AdvanceRegs(regs, levels, n - 1), AdvanceInstr(levels[n - 1]))
  }

  lemma {:induction false} RunAdvance(code: seq<Instr>, p: nat, regs: Regs, levels: seq<Level>, n: nat, trace: seq<Event>)
    requires n <= |levels| && At(code, p, AdvanceCode(levels, n))
    ensures Runs(code, p, AdvanceCode(levels, n), regs, AdvanceRegs(regs, levels, n), trace)
  {
    if n == 0 {
      RunsEmpty(code, p, regs, trace);
    } else if levels[n - 1].increment.None? {
      RunAdvance(code, p, regs, levels, n - 1, trace);
    } else {
      AtConcat(code, p, AdvanceCode(levels, n - 1), [AdvanceInstr(levels[n - 1])]);
      RunAdvance(code, p, regs, levels, n - 1, trace);
      RunsThen(code, p, AdvanceCode(levels, n - 1), AdvanceInstr(levels[n - 1]), regs, AdvanceRegs(regs, levels, n - 1), trace);
    }
  }

  /** Adding its step to every level moves all of them to the next iteration. */
  lemma {:induction false} AdvanceRegsOk(known: Known, regs: Regs, levels: seq<Level>, n: nat, i: int)
    requires LevelsOk(known, levels) && n <= |levels| && Advancing(known, regs, regs, levels, 0, i)
    ensures Advancing(known, regs, AdvanceRegs(regs, levels, n), levels, n, i)
  {
    if n > 0 {
      AdvanceRegsOk(known, regs, levels, n - 1, i);
      var before := AdvanceRegs(regs, levels, n - 1);
      AdvanceResult(known, regs, before, levels, n - 1, i);
      AdvanceOne(known, regs, before, levels, n - 1, i, Result(before, AdvanceInstr(levels[n - 1])));
    }
  }

  // ----- Unrolled loops -----

  /** A register whose value the body of the loop does not change. */
  ghost predicate Stable(known: Known, tmps: nat, base: Operand) {
    base.R? && (known.det(base.r) || (base.r.Tmp? && base.r.t < tmps))
  }

  ghost predicate TmpsKept(tmps: nat, regs: Regs, regs': Regs) {
    forall t: nat :: t < tmps ==> Get(regs', Tmp(t)) == Get(regs, Tmp(t))
  }

  ghost predicate BasesHold(known: Known, tmps: nat, regs: Regs, levels: seq<Level>, bases: seq<Operand>) {
    |bases| <= |levels| && forall k :: 0 <= k < |bases| ==> BaseHolds(known, tmps, regs, levels[k], bases[k])
  }

  ghost predicate BaseHolds(known: Known, tmps: nat, regs: Regs, level: Level, base: Operand) {
    Stable(known, tmps, base) && Eval(regs, base) == Start(known, level)
  }

  lemma BasesPersist(known: Known, tmps: nat, more: nat, regs: Regs, regs': Regs, levels: seq<Level>, bases: seq<Operand>)
    requires BasesHold(known, tmps, regs, levels, bases) && tmps <= more
    requires Holds(known, regs) && Holds(known, regs') && TmpsKept(tmps, regs, regs')
    ensures BasesHold(known, more, regs', levels, bases)
  {
    forall k | 0 <= k < |bases| ensures BaseHolds(known, more, regs', levels[k], bases[k]) {
      assert BaseHolds(known, tmps, regs, levels[k], bases[k]);
    }
  }

  lemma OnlyLevelsKeepsTmps(known: Known, regs: Regs, regs': Regs, levels: seq<Level>, tmps: nat)
    requires OnlyLevels(regs, regs', levels) && LevelsOk(known, levels)
    ensures TmpsKept(tmps, regs, regs')
  {
    forall t: nat | t < tmps ensures Get(regs', Tmp(t)) == Get(regs, Tmp(t)) {
      assert !IsLevelReg(levels, Tmp(t));
    }
  }

  /** The registers once a level of an unrolled loop is initialised. */
  function UnrolledInitOne(regs: Regs, level: Level, tmps: nat): Regs
    requires level.base.NumComponents() > 0
  {
    var components := Components(level.v, level.base);
    var regs1 := if |components| == 1 then regs else Apply(regs, AssignCode(Tmp(tmps), components));
    regs1[LevelReg(level) := Eval(regs1, UnrolledBase(level, tmps))]
  }

  function UnrolledInitRegs(regs: Regs, levels: seq<Level>, n: nat, tmps: nat): Regs
    requires n <= |levels| && forall k :: 0 <= k < n ==> levels[k].base.NumComponents() > 0
  {
    if n == 0 then regs
    else UnrolledInitOne(UnrolledInitRegs(regs, levels, n - 1, tmps), levels[n - 1], UnrolledTmps(levels, n - 1, tmps))
  }

  lemma {:induction false} RunUnrolledInit(code: seq<Instr>, p: nat, regs: Regs, levels: seq<Level>, n: nat, tmps: nat, trace: seq<Event>)
    requires n <= |levels| && forall k :: 0 <= k < n ==> levels[k].base.NumComponents() > 0
    requires At(code, p, UnrolledInit(levels, n, tmps))
    ensures Runs(code, p, UnrolledInit(levels, n, tmps), regs, UnrolledInitRegs(regs, levels, n, tmps), trace)
  {
    if n == 0 {
      RunsEmpty(code, p, regs, trace);
    } else {
      var before := UnrolledInit(levels, n - 1, tmps);
      var tmp := UnrolledTmps(levels, n - 1, tmps);
      var level := levels[n - 1];
      var components := Components(level.v, level.base);
      var mov := Mov(LevelReg(level), UnrolledBase(level, tmp));
      var regs0 := UnrolledInitRegs(regs, levels, n - 1, tmps);
      if |components| == 1 {
        AtConcat(code, p, before, [mov]);
        RunUnrolledInit(code, p, regs, levels, n - 1, tmps, trace);
        RunsThen(code, p, before, mov, regs, regs0, trace);
      } else {
        var sum := AssignCode(Tmp(tmp), components);
        assert before + [sum, mov] == before + [sum] + [mov];
        AtConcat(code, p, before + [sum], [mov]);
        AtConcat(code, p, before, [sum]);
        RunUnrolledInit(code, p, regs, levels, n - 1, tmps, trace);
        RunsThen(code, p, before, sum, regs, regs0, trace);
        RunsThen(code, p, before + [sum], mov, regs, Apply(regs0, sum), trace);
      }
    }
  }

  /** The first `n` levels of an unrolled loop run from `regs` were initialised. */
  ghost predicate InitReady(known: Known, regs: Regs, levels: seq<Level>, n: nat, tmps: nat)
    requires n <= |levels| && forall k :: 0 <= k < n ==> levels[k].base.NumComponents() > 0
  {
    UnrolledReady(known, regs, UnrolledInitRegs(regs, levels, n, tmps), levels, n, tmps,
                  UnrolledBases(levels, n, tmps), UnrolledTmps(levels, n, tmps))
  }

  lemma UnrolledInitNext(known: Known, regs: Regs, levels: seq<Level>, n: nat, tmps: nat)
    requires LevelsOk(known, levels) && 0 < n <= |levels| && InitReady(known, regs, levels, n - 1, tmps)
    ensures InitReady(known, regs, levels, n, tmps)
  {
    UnrolledInitStep(known, regs, UnrolledInitRegs(regs, levels, n - 1, tmps), levels, n - 1, tmps,
                     UnrolledBases(levels, n - 1, tmps), UnrolledTmps(levels, n - 1, tmps),
                     UnrolledInitRegs(regs, levels, n, tmps), UnrolledBases(levels, n, tmps), UnrolledTmps(levels, n, tmps));
  }

  lemma {:induction false} UnrolledInitOk(known: Known, regs: Regs, levels: seq<Level>, n: nat, tmps: nat)
    requires Holds(known, regs) && LevelsOk(known, levels) && n <= |levels|
    ensures InitReady(known, regs, levels, n, tmps)
  {
    if n == 0 {
      ReadyAtFirst(known, regs, levels, tmps);
    } else {
      UnrolledInitOk(known, regs, levels, n - 1, tmps);
      UnrolledInitNext(known, regs, levels, n, tmps);
    }
  }

  lemma ReadyAtFirst(known: Known, regs: Regs, levels: seq<Level>, tmps: nat)
    requires Holds(known, regs) && LevelsOk(known, levels)
    ensures UnrolledReady(known, regs, regs, levels, 0, tmps, [], tmps)
  {
  }

  ghost predicate UnrolledReady(known: Known, regs: Regs, regs': Regs, levels: seq<Level>, n: nat, tmps: nat, bases: seq<Operand>, tmps': nat) {
    && n <= |levels| && |bases| == n && tmps <= tmps'
    && Holds(known, regs')
    && LevelsAt(known, regs', levels, 0, n, 0)
    && BasesHold(known, tmps', regs', levels, bases)
    && TmpsKept(tmps, regs, regs')
  }

  lemma UnrolledInitStep(known: Known, start: Regs, regs: Regs, levels: seq<Level>, n: nat, tmps: nat, bases: seq<Operand>, next: nat,
                         regs': Regs, bases': seq<Operand>, next': nat)
    requires LevelsOk(known, levels) && n < |levels|
    requires UnrolledReady(known, start, regs, levels, n, tmps, bases, next)
    requires regs' == UnrolledInitOne(regs, levels[n], next)
    requires bases' == bases + [UnrolledBase(levels[n], next)]
    requires next' == if levels[n].base.NumComponents() == 1 then next else next + 1
    ensures UnrolledReady(known, start, regs', levels, n + 1, tmps, bases', next')
  {
    var level := levels[n];
    var components := Components(level.v, level.base);
    var base := UnrolledBase(level, next);
    var sum := AssignCode(Tmp(next), components);
    var x := Start(known, level);
    EvalComponents(known, regs, level, Tmp(next));
    var regs1 := if |components| == 1 then regs else regs[sum.dst := Result(regs, sum)];
    var tmps1 := if |components| == 1 then next else next + 1;
    WriteKeeps(known, regs, Tmp(next), Result(regs, sum));
    BasesPersist(known, next, tmps1, regs, regs1, levels, bases);
    assert Eval(regs1, base) == x;
    forall k | 0 <= k < n ensures LevelAt(known, regs1, levels[k], 0) {
      assert LevelAt(known, regs, levels[k], 0);
      assert levels[k].increment.Some?;
    }
    ReachedOnly(regs1, levels);
    SetLevel(known, regs1, regs1, levels, n, x, 0);
    var regs2 := regs1[LevelReg(level) := x];
    BasesPersist(known, tmps1, tmps1, regs1, regs2, levels, bases);
    assert Stable(known, tmps1, base);
    StableKept(known, tmps1, regs1, regs2, base);
    BasesAppend(known, tmps1, regs2, levels, bases, base);
  }

  lemma ReachedOnly(regs: Regs, levels: seq<Level>)
    ensures OnlyLevels(regs, regs, levels)
  {
  }

  lemma StableKept(known: Known, tmps: nat, regs: Regs, regs': Regs, base: Operand)
    requires Stable(known, tmps, base) && TmpsKept(tmps, regs, regs')
    requires Holds(known, regs) && Holds(known, regs')
    ensures Eval(regs', base) == Eval(regs, base)
  {
  }

  lemma BasesAppend(known: Known, tmps: nat, regs: Regs, levels: seq<Level>, bases: seq<Operand>, base: Operand)
    requires BasesHold(known, tmps, regs, levels, bases) && |bases| < |levels|
    requires BaseHolds(known, tmps, regs, levels[|bases|], base)
    ensures BasesHold(known, tmps, regs, levels, bases + [base])
  {
  }

  lemma UnrolledResult(known: Known, start: Regs, regs: Regs, levels: seq<Level>, bases: seq<Operand>, n: nat, i: nat, tmps: nat)
    requires LevelsOk(known, levels) && n < |levels| == |bases|
    requires Advancing(known, start, regs, levels, n, i)
    requires Holds(known, start) && BasesHold(known, tmps, start, levels, bases)
    ensures Result(regs, UnrolledInstr(levels[n], bases[n], i)) == Start(known, levels[n]) + i * StepOf(known, levels[n])
  {
    assert BaseHolds(known, tmps, start, levels[n], bases[n]);
    OnlyLevelsKeepsTmps(known, start, regs, levels, tmps);
    StableKept(known, tmps, start, regs, bases[n]);
    EvalSize(known, regs, levels[n].increment.value.step);
    assert LevelAt(known, regs, levels[n], i - 1);
    assert (i - 1) * StepOf(known, levels[n]) + StepOf(known, levels[n]) == i * StepOf(known, levels[n]);
  }

  /** Every level is one step before iteration `i` and the bases are still there. */
  ghost predicate UnrolledFrom(known: Known, regs: Regs, levels: seq<Level>, bases: seq<Operand>, i: nat, tmps: nat) {
    && LevelsOk(known, levels) && |levels| == |bases|
    && Advancing(known, regs, regs, levels, 0, i) && BasesHold(known, tmps, regs, levels, bases)
  }

  lemma UnrolledOne(known: Known, start: Regs, regs: Regs, levels: seq<Level>, bases: seq<Operand>, n: nat, i: nat, tmps: nat)
    requires UnrolledFrom(known, start, levels, bases, i, tmps) && n < |levels| && Advancing(known, start, regs, levels, n, i)
    ensures Advancing(known, start, Apply(regs, UnrolledInstr(levels[n], bases[n], i)), levels, n + 1, i)
  {
    UnrolledResult(known, start, regs, levels, bases, n, i, tmps);
    AdvanceOne(known, start, regs, levels, n, i, Result(regs, UnrolledInstr(levels[n], bases[n], i)));
  }

  function UnrolledRegs(regs: Regs, levels: seq<Level>, bases: seq<Operand>, n: nat, i: nat): Regs
    requires n <= |levels| == |bases|
  {
    if n == 0 then regs
    else if levels[n - 1].increment.None? then UnrolledRegs(regs, levels, bases, n - 1, i)
    else Apply(UnrolledRegs(regs, levels, bases, n - 1, i), UnrolledInstr(levels[n - 1], bases[n - 1], i))
  }

  lemma {:induction false} RunUnrolled(code: seq<Instr>, p: nat, regs: Regs, levels: seq<Level>, bases: seq<Operand>, n: nat, i: nat, trace: seq<Event>)
    requires n <= |levels| == |bases| && At(code, p, UnrolledAdvance(levels, bases, n, i))
    ensures Runs(code, p, UnrolledAdvance(levels, bases, n, i), regs, UnrolledRegs(regs, levels, bases, n, i), trace)
  {
    if n == 0 {
      RunsEmpty(code, p, regs, trace);
    } else if levels[n - 1].increment.None? {
      RunUnrolled(code, p, regs, levels, bases, n - 1, i, trace);
    } else {
      var before := UnrolledAdvance(levels, bases, n - 1, i);
      var instr := UnrolledInstr(levels[n - 1], bases[n - 1], i);
      AtConcat(code, p, before, [instr]);
      RunUnrolled(code, p, regs, levels, bases, n - 1, i, trace);
      RunsThen(code, p, before, instr, regs, UnrolledRegs(regs, levels, bases, n - 1, i), trace);
    }
  }

  lemma UnrolledGrow(known: Known, regs: Regs, before: Regs, levels: seq<Level>, bases: seq<Operand>, n: nat, i: nat, tmps: nat)
    requires 0 < n <= |levels| && UnrolledFrom(known, regs, levels, bases, i, tmps)
    requires before == UnrolledRegs(regs, levels, bases, n - 1, i) && Advancing(known, regs, before, levels, n - 1, i)
    ensures Advancing(known, regs, UnrolledRegs(regs, levels, bases, n, i), levels, n, i)
  {
    UnrolledOne(known, regs, before, levels, bases, n - 1, i, tmps);
    UnrolledLast(regs, levels, bases, n, i);
  }

  lemma UnrolledLast(regs: Regs, levels: seq<Level>, bases: seq<Operand>, n: nat, i: nat)
    requires 0 < n <= |levels| == |bases| && levels[n - 1].increment.Some?
    ensures UnrolledRegs(regs, levels, bases, n, i) ==
            Apply(UnrolledRegs(regs, levels, bases, n - 1, i), UnrolledInstr(levels[n - 1], bases[n - 1], i))
  {
  }

  /** A known step is multiplied, an unknown one added to the previous value: both move the levels. */
  lemma {:induction false} UnrolledRegsOk(known: Known, regs: Regs, levels: seq<Level>, bases: seq<Operand>, n: nat, i: nat, tmps: nat)
    requires n <= |levels| && UnrolledFrom(known, regs, levels, bases, i, tmps)
    ensures Advancing(known, regs, UnrolledRegs(regs, levels, bases, n, i), levels, n, i)
  {
    if n > 0 {
      UnrolledRegsOk(known, regs, levels, bases, n - 1, i, tmps);
      UnrolledGrow(known, regs, UnrolledRegs(regs, levels, bases, n - 1, i), levels, bases, n, i, tmps);
    }
  }

  // ----- Levels of parallel dimensions -----

  predicate KnownOrEarlier(known: Known, levels: seq<Level>, k: nat, r: Reg)
    requires k <= |levels|
  {
    known.det(r) || exists a :: 0 <= a < k && LevelReg(levels[a]) == r
  }

  /** The `k`-th level adds up registers that are known when it is computed. */
  predicate ParallelSound(known: Known, space: Space, levels: seq<Level>, k: nat)
    requires k < |levels|
  {
    var level := levels[k];
    && ParallelPrintable(level)
    && (level.base.outer.Some? ==> KnownOrEarlier(known, levels, k, LevelOf(level.v, level.base.outer.value)))
    && (level.base.operand ==> known.det(Base(level.v)))
    && (level.increment.Some? ==> known.det(Index(space.Group(level.increment.value.dim))))
    && known.value(LevelReg(level)) ==
         Start(known, level) +
         if level.increment.None? then 0
         else known.value(Index(space.Group(level.increment.value.dim))) * StepSize(known, level.increment.value.step)
  }

  function ParallelRegs(regs: Regs, space: Space, levels: seq<Level>, n: nat): Regs
    requires n <= |levels| && forall k :: 0 <= k < n ==> ParallelPrintable(levels[k])
  {
    if n == 0 then regs else Apply(ParallelRegs(regs, space, levels, n - 1), ParallelCode(space, levels[n - 1]))
  }

  lemma {:induction false} RunParallel(code: seq<Instr>, p: nat, regs: Regs, space: Space, levels: seq<Level>, n: nat, trace: seq<Event>)
    requires n <= |levels| && forall k :: 0 <= k < n ==> ParallelPrintable(levels[k])
    requires At(code, p, ParallelCodes(space, levels, n))
    ensures Runs(code, p, ParallelCodes(space, levels, n), regs, ParallelRegs(regs, space, levels, n), trace)
  {
    if n == 0 {
      RunsEmpty(code, p, regs, trace);
    } else {
      AtConcat(code, p, ParallelCodes(space, levels, n - 1), [ParallelCode(space, levels[n - 1])]);
      RunParallel(code, p, regs, space, levels, n - 1, trace);
      RunsThen(code, p, ParallelCodes(space, levels, n - 1), ParallelCode(space, levels[n - 1]), regs,
               ParallelRegs(regs, space, levels, n - 1), trace);
    }
  }

  /** Known registers and the first `n` levels hold their value; temporaries are untouched. */
  ghost predicate ParallelReady(known: Known, start: Regs, regs: Regs, levels: seq<Level>, n: nat)
    requires n <= |levels|
  {
    && (forall r :: KnownOrEarlier(known, levels, n, r) ==> Get(regs, r) == known.value(r))
    && forall t: nat :: Get(regs, Tmp(t)) == Get(start, Tmp(t))
  }

  lemma ParallelStep(known: Known, start: Regs, regs: Regs, space: Space, levels: seq<Level>, n: nat)
    requires n < |levels| && ParallelSound(known, space, levels, n) && forall p: nat :: known.det(Param(p))
    requires ParallelReady(known, start, regs, levels, n)
    ensures ParallelReady(known, start, Apply(regs, ParallelCode(space, levels[n])), levels, n + 1)
  {
    var level := levels[n];
    var regs' := Apply(regs, ParallelCode(space, level));
    ParallelResult(known, regs, space, levels, n);
    forall r | KnownOrEarlier(known, levels, n + 1, r) ensures Get(regs', r) == known.value(r) {
      if r != LevelReg(level) {
        assert KnownOrEarlier(known, levels, n, r);
      }
    }
  }

  lemma ParallelResult(known: Known, regs: Regs, space: Space, levels: seq<Level>, n: nat)
    requires n < |levels| && ParallelSound(known, space, levels, n) && forall p: nat :: known.det(Param(p))
    requires forall r :: KnownOrEarlier(known, levels, n, r) ==> Get(regs, r) == known.value(r)
    ensures Result(regs, ParallelCode(space, levels[n])) == known.value(LevelReg(levels[n]))
  {
    var level := levels[n];
    assert level.base.operand ==> KnownOrEarlier(known, levels, n, Base(level.v));
    if level.increment.Some? {
      assert KnownOrEarlier(known, levels, n, Index(space.Group(level.increment.value.dim)));
      if level.increment.value.step.Sym? {
        assert KnownOrEarlier(known, levels, n, Param(level.increment.value.step.param));
      }
    }
  }

  lemma {:induction false} ParallelRegsOk(known: Known, regs: Regs, space: Space, levels: seq<Level>, n: nat)
    requires n <= |levels| && Holds(known, regs) && forall p: nat :: known.det(Param(p))
    requires forall k :: 0 <= k < |levels| ==> ParallelPrintable(levels[k])
    requires forall k :: 0 <= k < |levels| ==> ParallelSound(known, space, levels, k)
    ensures ParallelReady(known, regs, ParallelRegs(regs, space, levels, n), levels, n)
  {
    if n > 0 {
      ParallelRegsOk(known, regs, space, levels, n - 1);
      ParallelStep(known, regs, ParallelRegs(regs, space, levels, n - 1), space, levels, n - 1);
    }
  }

  // ----- Guards -----

  function GuardRegs(fun: Function, active: seq<Option<nat>>, n: nat, names: Names, regs: Regs): Regs
    requires n <= |active| <= |fun.threadDims|
  {
    if n == 0 then regs
    else
      var before := GuardRegs(fun, active, n - 1, names, regs);
      var e := GuardCode(fun, active, n - 1, names);
      if active[n - 1].Some? then before
      else
        var bit := Tmp(e.names.tmps);
        var tested := Apply(before, Eq(bit, R(Index(fun.threadDims[n - 1])), Lit(0)));
        if e.names.guard.None? then tested
        else Apply(tested, And(e.names.guard.value, R(e.names.guard.value), R(bit)))
  }

  lemma {:induction false} RunGuard(code: seq<Instr>, p: nat, fun: Function, active: seq<Option<nat>>, n: nat, names: Names, regs: Regs, trace: seq<Event>)
    requires n <= |active| <= |fun.threadDims| && At(code, p, GuardCode(fun, active, n, names).code)
    ensures Runs(code, p, GuardCode(fun, active, n, names).code, regs, GuardRegs(fun, active, n, names, regs), trace)
  {
    if n == 0 {
      RunsEmpty(code, p, regs, trace);
    } else if active[n - 1].Some? {
      RunGuard(code, p, fun, active, n - 1, names, regs, trace);
    } else {
      var e := GuardCode(fun, active, n - 1, names);
      var before := GuardRegs(fun, active, n - 1, names, regs);
      var bit := Tmp(e.names.tmps);
      var test := Eq(bit, R(Index(fun.threadDims[n - 1])), Lit(0));
      if e.names.guard.None? {
        AtConcat(code, p, e.code, [test]);
        RunGuard(code, p, fun, active, n - 1, names, regs, trace);
        RunsThen(code, p, e.code, test, regs, before, trace);
      } else {
        var meet := And(e.names.guard.value, R(e.names.guard.value), R(bit));
        AtConcat(code, p, e.code + [test], [meet]);
        AtConcat(code, p, e.code, [test]);
        RunGuard(code, p, fun, active, n - 1, names, regs, trace);
        RunsThen(code, p, e.code, test, regs, before, trace);
        RunsThen(code, p, e.code + [test], meet, regs, Apply(before, test), trace);
      }
    }
  }

  /** Every inactive dimension among the first `n` has index 0. */
  ghost predicate AllZero(known: Known, fun: Function, active: seq<Option<nat>>, n: nat)
    requires n <= |active| <= |fun.threadDims|
  {
    forall k :: 0 <= k < n && active[k].None? ==> known.value(Index(fun.threadDims[k])) == 0
  }

  /** The guard holds exactly for the threads whose inactive indexes are 0. */
  ghost predicate GuardReady(known: Known, start: Regs, regs: Regs, fun: Function, active: seq<Option<nat>>, n: nat,
                             tmps: nat, guard: Option<Reg>, tmps': nat)
    requires n <= |active| <= |fun.threadDims|
  {
    && Holds(known, regs) && TmpsKept(tmps, start, regs) && tmps <= tmps'
    && match guard
       case None => AllZero(known, fun, active, n)
       case Some(r) => r.Tmp? && tmps <= r.t < tmps' && (Get(regs, r) != 0 <==> AllZero(known, fun, active, n))
  }

  lemma {:induction false} GuardOk(known: Known, fun: Function, active: seq<Option<nat>>, n: nat, names: Names, regs: Regs)
    requires n <= |active| <= |fun.threadDims| && Holds(known, regs) && (forall t: nat :: !known.det(Tmp(t)))
    requires forall k :: 0 <= k < |active| ==> known.det(Index(fun.threadDims[k]))
    ensures
      var e := GuardCode(fun, active, n, names).names;
      GuardReady(known, regs, GuardRegs(fun, active, n, names, regs), fun, active, n, names.tmps, e.guard, e.tmps)
  {
    if n > 0 {
      GuardOk(known, fun, active, n - 1, names, regs);
      if active[n - 1].None? {
        GuardStep(known, regs, GuardRegs(fun, active, n - 1, names, regs), fun, active, n - 1, names.tmps,
                  GuardCode(fun, active, n - 1, names).names);
      }
    }
  }

  lemma GuardStep(known: Known, start: Regs, regs: Regs, fun: Function, active: seq<Option<nat>>, n: nat, tmps: nat, names: Names)
    requires n < |active| <= |fun.threadDims| && active[n].None? && (forall t: nat :: !known.det(Tmp(t)))
    requires known.det(Index(fun.threadDims[n]))
    requires GuardReady(known, start, regs, fun, active, n, tmps, names.guard, names.tmps)
    ensures
      var bit := Tmp(names.tmps);
      var tested := Apply(regs, Eq(bit, R(Index(fun.threadDims[n])), Lit(0)));
      && (names.guard.None? ==> GuardReady(known, start, tested, fun, active, n + 1, tmps, Some(bit), names.tmps + 1))
      && (names.guard.Some? ==>
            GuardReady(known, start, Apply(tested, And(names.guard.value, R(names.guard.value), R(bit))), fun, active, n + 1,
                       tmps, names.guard, names.tmps + 1))
  {
    assert AllZero(known, fun, active, n + 1) <==> AllZero(known, fun, active, n) && known.value(Index(fun.threadDims[n])) == 0;
  }

  // ----- The end of a sequential loop -----

  /** The registers once a loop advanced and tested its index. */
  function LoopEndRegs(regs: Regs, levels: seq<Level>, g: nat, size: Size, tmp: nat): Regs {
    Apply(Apply(AdvanceRegs(regs, levels, |levels|), Add(Index(g), R(Index(g)), Lit(1))), Lt(Tmp(tmp), R(Index(g)), NameSize(size)))
  }

  /** What a loop runs after its body, up to its conditional jump. */
  function LoopTest(levels: seq<Level>, g: nat, size: Size, tmp: nat): seq<Instr> {
    AdvanceCode(levels, |levels|) + [Add(Index(g), R(Index(g)), Lit(1))] + [Lt(Tmp(tmp), R(Index(g)), NameSize(size))]
  }

  lemma RunLoopTest(code: seq<Instr>, p: nat, levels: seq<Level>, g: nat, size: Size, tmp: nat, regs: Regs, trace: seq<Event>)
    requires At(code, p, LoopTest(levels, g, size, tmp))
    ensures Runs(code, p, LoopTest(levels, g, size, tmp), regs, LoopEndRegs(regs, levels, g, size, tmp), trace)
  {
    var advance := AdvanceCode(levels, |levels|);
    var add := Add(Index(g), R(Index(g)), Lit(1));
    var lt := Lt(Tmp(tmp), R(Index(g)), NameSize(size));
    AtConcat(code, p, advance + [add], [lt]);
    AtConcat(code, p, advance, [add]);
    var regs1 := AdvanceRegs(regs, levels, |levels|);
    RunAdvance(code, p, regs, levels, |levels|, trace);
    RunsThen(code, p, advance, add, regs, regs1, trace);
    RunsThen(code, p, advance + [add], lt, regs, Apply(regs1, add), trace);
  }

  lemma NothingMoved(known: Known, regs: Regs, levels: seq<Level>, i: int)
    requires Holds(known, regs) && LevelsAt(known, regs, levels, 0, |levels|, i)
    ensures Advancing(known, regs, regs, levels, 0, i + 1)
  {
  }

  /** Every level, and the index of a sequential loop, is at iteration `i`. */
  ghost predicate IterationAt(known: Known, levels: seq<Level>, g: nat, sequential: bool, regs: Regs, i: int) {
    Holds(known, regs) && LevelsAt(known, regs, levels, 0, |levels|, i) && (sequential ==> Get(regs, Index(g)) == i)
  }

  lemma LoopEndOk(known: Known, levels: seq<Level>, g: nat, size: Size, tmp: nat, regs: Regs, i: int)
    requires LevelsOk(known, levels) && !known.det(Index(g)) && IterationAt(known, levels, g, true, regs, i)
    ensures
      var regs' := LoopEndRegs(regs, levels, g, size, tmp);
      && IterationAt(known, levels, g, true, regs', i + 1) && TmpsKept(tmp, regs, regs')
      && (Get(regs', Tmp(tmp)) != 0 <==> i + 1 < StepSize(known, size))
  {
    NothingMoved(known, regs, levels, i);
    AdvanceRegsOk(known, regs, levels, |levels|, i + 1);
    var regs1 := AdvanceRegs(regs, levels, |levels|);
    NotALevel(known, levels, Index(g));
    var regs2 := Apply(regs1, Add(Index(g), R(Index(g)), Lit(1)));
    WriteKeeps(known, regs1, Index(g), i + 1);
    EvalSize(known, regs2, size);
    var regs' := LoopEndRegs(regs, levels, g, size, tmp);
    WriteKeeps(known, regs2, Tmp(tmp), Get(regs', Tmp(tmp)));
    OtherRegister(known, levels, regs1, regs2, Index(g), i + 1);
    OtherRegister(known, levels, regs2, regs', Tmp(tmp), i + 1);
    OnlyLevelsKeepsTmps(known, regs, regs1, levels, tmp);
  }

  lemma NotALevel(known: Known, levels: seq<Level>, r: Reg)
    requires LevelsOk(known, levels) && !r.LevelOf?
    ensures !IsLevelReg(levels, r)
  {
    assert forall k :: 0 <= k < |levels| ==> levels[k].increment.Some?;
  }

  /** Writing another register leaves the levels where they are. */
  lemma OtherRegister(known: Known, levels: seq<Level>, regs: Regs, regs': Regs, r: Reg, i: int)
    requires LevelsOk(known, levels) && !r.LevelOf? && LevelsAt(known, regs, levels, 0, |levels|, i)
    requires regs' == regs[r := Get(regs', r)]
    ensures LevelsAt(known, regs', levels, 0, |levels|, i)
  {
    forall k | 0 <= k < |levels| ensures LevelAt(known, regs', levels[k], i) {
      assert LevelAt(known, regs, levels[k], i) && levels[k].increment.Some?;
    }
  }
}
