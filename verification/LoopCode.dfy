/** The flat code printed for a control flow graph, and the machine that runs it. */
module LoopCode {
  import opened Wrappers
  import opened Sequences
  import opened InductionVars

  // ----- Flat code -----

  datatype Reg =
    | Param(p: nat)                      // a size passed to the kernel
    | Base(v: nat)                       // the base operand of an induction variable
    | Index(g: nat)                      // the index of a dimension
    | LevelOf(v: nat, dim: nat)          // an induction level
    | Elsewhere(v: nat)                  // an induction variable with a level of its own
    | Tmp(t: nat)

  datatype Operand = Lit(n: int) | R(r: Reg)

  datatype Instr =
    | Mov(dst: Reg, a: Operand)
    | Add(dst: Reg, a: Operand, b: Operand)
    | Mul(dst: Reg, a: Operand, b: Operand)
    | Mad(dst: Reg, a: Operand, b: Operand, c: Operand)
    | Lt(dst: Reg, a: Operand, b: Operand)
    | Eq(dst: Reg, a: Operand, b: Operand)
    | And(dst: Reg, a: Operand, b: Operand)
    | Label(l: nat)
    | JumpIf(l: nat, cond: Reg)
    | Sync
    | Exec(inst: nat, current: map<nat, nat>, guard: Option<Reg>)

  type Regs = map<Reg, int>

  /** An instruction sees the registers; its side effects take place unless its guard is false. */
  datatype Event =
    | Ran(inst: nat, current: map<nat, nat>, effect: bool, regs: Regs)
    | Barrier

  datatype Machine = Machine(pc: nat, regs: Regs, trace: seq<Event>)

  function Get(regs: Regs, r: Reg): int {
    if r in regs then regs[r] else 0
  }

  function Eval(regs: Regs, o: Operand): int {
    match o
    case Lit(n) => n
    case R(r) => Get(regs, r)
  }

  /** The first position of a label from `start` on. */
  function FindFrom(code: seq<Instr>, l: nat, start: nat): (pos: nat)
    requires start <= |code|
    ensures start <= pos <= |code|
    ensures pos < |code| ==> code[pos] == Label(l)
    ensures forall k :: start <= k < pos ==> code[k] != Label(l)
    decreases |code| - start
  {
    if start == |code| || code[start] == Label(l) then start else FindFrom(code, l, start + 1)
  }

  function Find(code: seq<Instr>, l: nat): (pos: nat) {
    FindFrom(code, l, 0)
  }

  function Bool(b: bool): int {
    if b then 1 else 0
  }

  /** The value an arithmetic instruction stores. */
  function Result(regs: Regs, i: Instr): int
    requires i.Mov? || i.Add? || i.Mul? || i.Mad? || i.Lt? || i.Eq? || i.And?
  {
    match i
    case Mov(_, a) => Eval(regs, a)
    case Add(_, a, b) => Eval(regs, a) + Eval(regs, b)
    case Mul(_, a, b) => Eval(regs, a) * Eval(regs, b)
    case Mad(_, a, b, c) => Eval(regs, a) * Eval(regs, b) + Eval(regs, c)
    case Lt(_, a, b) => Bool(Eval(regs, a) < Eval(regs, b))
    case Eq(_, a, b) => Bool(Eval(regs, a) == Eval(regs, b))
    case And(_, a, b) => Bool(Eval(regs, a) != 0 && Eval(regs, b) != 0)
  }

  function Step(code: seq<Instr>, m: Machine): Machine
    requires m.pc < |code|
  {
    match code[m.pc]
    case Label(_) => m.(pc := m.pc + 1)
    case JumpIf(l, cond) => m.(pc := if Get(m.regs, cond) != 0 then Find(code, l) else m.pc + 1)
    case Sync => m.(pc := m.pc + 1, trace := m.trace + [Barrier])
    case Exec(inst, current, guard) =>
      var effect := guard.None? || Get(m.regs, guard.value) != 0;
      m.(pc := m.pc + 1, trace := m.trace + [Ran(inst, current, effect, m.regs)])
    case i => m.(pc := m.pc + 1, regs := m.regs[i.dst := Result(m.regs, i)])
  }

  /** The machine after `n` steps, unless it halts before. */
  function Steps(code: seq<Instr>, m: Machine, n: nat): Machine
    decreases n
  {
    if n == 0 || m.pc >= |code| then m else Steps(code, Step(code, m), n - 1)
  }

  // ----- Control flow graphs -----

  datatype Cfg =
    | Root(body: seq<Cfg>)
    | Loop(g: nat, body: seq<Cfg>)
    | Threads(active: seq<Option<nat>>, body: seq<Cfg>)   // per thread dimension, the loop mapped to it
    | Inst(id: nat)

  datatype Function = Function(
    space: Space,
    blockDims: seq<nat>,
    threadDims: seq<nat>,
    fused: map<nat, seq<nat>>,        // the IR dimensions fused into each loop mapped to a thread
    precomputed: seq<Level>,
    table: Table)
  {
    ghost predicate Valid() {
      && space.Valid()
      && precomputed == Precomputed(space, |space.vars|)
      && table == LevelTable(space, |space.vars|)
      && (forall k :: 0 <= k < |blockDims| ==> blockDims[k] < |space.dims| && space.dims[blockDims[k]].kind.Block?)
      && (forall k :: 0 <= k < |threadDims| ==> threadDims[k] < |space.dims| && space.dims[threadDims[k]].kind.Thread?)
      && (forall g :: 0 <= g < |space.dims| && space.dims[g].kind.Block? ==> g in blockDims)
    }

    function LoopLevels(g: nat): seq<Level>
      requires g < |space.dims|
    {
      LevelsOfDims(table, space.dims[g].ids)
    }

    function Fused(d: nat): seq<nat> {
      if d in fused then fused[d] else [d]
    }

    /** The IR dimensions active in a block of threads. */
    function ActiveIds(active: seq<Option<nat>>): seq<nat> {
      if active == [] then []
      else
        var rest := ActiveIds(active[..|active| - 1]);
        match active[|active| - 1]
        case None => rest
        case Some(d) => rest + Fused(d)
    }

    /** The levels computed when entering a block of threads active on some dimensions. */
    function ThreadLevels(active: seq<Option<nat>>): seq<Level> {
      LevelsOfDims(table, ActiveIds(active))
    }

    function BlockParts(): (r: seq<seq<Level>>)
      requires forall k :: 0 <= k < |blockDims| ==> blockDims[k] < |space.dims|
      ensures |r| == |blockDims| && forall k :: 0 <= k < |r| ==> r[k] == LoopLevels(blockDims[k])
    {
      seq(|blockDims|, k requires 0 <= k < |blockDims| => LoopLevels(blockDims[k]))
    }

    function BlockLevels(): seq<Level>
      requires forall k :: 0 <= k < |blockDims| ==> blockDims[k] < |space.dims|
    {
      Flatten(BlockParts())
    }

    /** The levels computed once, before anything else. */
    function InitLevels(): seq<Level>
      requires forall k :: 0 <= k < |blockDims| ==> blockDims[k] < |space.dims|
    {
      precomputed + BlockLevels()
    }

    /** What can be printed: loops are sequential, thread blocks list every thread dimension. */
    predicate Printable(c: Cfg) {
      match c
      case Root(body) => forall k :: 0 <= k < |body| ==> Printable(body[k])
      case Loop(g, body) =>
        && g < |space.dims| && (space.dims[g].kind.Loop? || (space.dims[g].kind.Unroll? && space.dims[g].size.Const?))
        && (forall k :: 0 <= k < |LoopLevels(g)| ==> LoopLevels(g)[k].base.NumComponents() > 0)
        && forall k :: 0 <= k < |body| ==> Printable(body[k])
      case Threads(active, body) =>
        && |active| == |threadDims|
        && (forall k :: 0 <= k < |ThreadLevels(active)| ==> ParallelPrintable(ThreadLevels(active)[k]))
        && forall k :: 0 <= k < |body| ==> Printable(body[k])
      case Inst(_) => true
    }
  }

  predicate ParallelPrintable(level: Level) {
    level.increment.Some? ==> level.base.NumComponents() <= 1
  }

  // ----- Names -----

  datatype Names = Names(labels: nat, tmps: nat, current: map<nat, nat>, guard: Option<Reg>)

  function LevelReg(level: Level): Reg {
    match level.increment
    case None => Elsewhere(level.v)
    case Some(inc) => LevelOf(level.v, inc.dim)
  }

  function Components(v: nat, value: Value): (r: seq<Operand>)
    ensures |r| == value.NumComponents()
  {
    (match value.outer case None => [] case Some(d) => [R(LevelOf(v, d))]) + if value.operand then [R(Base(v))] else []
  }

  function NameSize(size: Size): Operand {
    match size
    case Const(n) => Lit(n)
    case Sym(p) => R(Param(p))
  }

  /** What an instruction reads when it uses the variable. */
  function NameInductionVar(space: Space, v: nat): Operand
    requires v < |space.vars|
  {
    var components := Components(v, FinalValue(space, v));
    if components == [] then R(Elsewhere(v)) else components[0]
  }

  // ----- The code of each construct -----

  datatype Emitted = Emitted(code: seq<Instr>, names: Names)

  function AssignCode(dst: Reg, components: seq<Operand>): Instr
    requires 1 <= |components| <= 2
  {
    if |components| == 1 then Mov(dst, components[0]) else Add(dst, components[0], components[1])
  }

  /** The first `n` levels take the value of their base. */
  function InitCode(levels: seq<Level>, n: nat): (r: seq<Instr>)
    requires n <= |levels| && forall k :: 0 <= k < n ==> levels[k].base.NumComponents() > 0
    ensures |r| == n
  {
    if n == 0 then []
    else InitCode(levels, n - 1) + [AssignCode(LevelReg(levels[n - 1]), Components(levels[n - 1].v, levels[n - 1].base))]
  }

  function AdvanceInstr(level: Level): Instr
    requires level.increment.Some?
  {
    Add(LevelReg(level), R(LevelReg(level)), NameSize(level.increment.value.step))
  }

  /** The first `n` levels advance by their step. */
  function AdvanceCode(levels: seq<Level>, n: nat): seq<Instr>
    requires n <= |levels|
  {
    if n == 0 then []
    else if levels[n - 1].increment.None? then AdvanceCode(levels, n - 1)
    else AdvanceCode(levels, n - 1) + [AdvanceInstr(levels[n - 1])]
  }

  /** The operand a level of an unrolled loop starts from, in a temporary when it is a sum. */
  function UnrolledBase(level: Level, tmp: nat): Operand
    requires level.base.NumComponents() > 0
  {
    var components := Components(level.v, level.base);
    if |components| == 1 then components[0] else R(Tmp(tmp))
  }

  /** The temporaries in use once the first `n` levels are initialised. */
  function UnrolledTmps(levels: seq<Level>, n: nat, tmps: nat): (r: nat)
    requires n <= |levels|
    ensures tmps <= r
  {
    if n == 0 then tmps
    else UnrolledTmps(levels, n - 1, tmps) + if levels[n - 1].base.NumComponents() == 1 then 0 else 1
  }

  /** The operands the first `n` levels start from, which later iterations use again. */
  function UnrolledBases(levels: seq<Level>, n: nat, tmps: nat): (r: seq<Operand>)
    requires n <= |levels| && forall k :: 0 <= k < n ==> levels[k].base.NumComponents() > 0
    ensures |r| == n
  {
    if n == 0 then []
    else UnrolledBases(levels, n - 1, tmps) + [UnrolledBase(levels[n - 1], UnrolledTmps(levels, n - 1, tmps))]
  }

  /** The first `n` levels take the value of their base. */
  function UnrolledInit(levels: seq<Level>, n: nat, tmps: nat): seq<Instr>
    requires n <= |levels| && forall k :: 0 <= k < n ==> levels[k].base.NumComponents() > 0
  {
    if n == 0 then []
    else
      var tmp := UnrolledTmps(levels, n - 1, tmps);
      var components := Components(levels[n - 1].v, levels[n - 1].base);
      var mov := Mov(LevelReg(levels[n - 1]), UnrolledBase(levels[n - 1], tmp));
      UnrolledInit(levels, n - 1, tmps) + if |components| == 1 then [mov] else [AssignCode(Tmp(tmp), components), mov]
  }

  /** A known step is multiplied, an unknown one added to the previous value. */
  function UnrolledInstr(level: Level, base: Operand, i: nat): Instr
    requires level.increment.Some?
  {
    match level.increment.value.step
    case Const(step) => Add(LevelReg(level), Lit(step * i), base)
    case Sym(_) => Add(LevelReg(level), NameSize(level.increment.value.step), R(LevelReg(level)))
  }

  /** Sets the first `n` levels for iteration `i` of an unrolled loop. */
  function UnrolledAdvance(levels: seq<Level>, bases: seq<Operand>, n: nat, i: nat): seq<Instr>
    requires n <= |levels| == |bases|
  {
    if n == 0 then []
    else if levels[n - 1].increment.None? then UnrolledAdvance(levels, bases, n - 1, i)
    else UnrolledAdvance(levels, bases, n - 1, i) + [UnrolledInstr(levels[n - 1], bases[n - 1], i)]
  }

  function ParallelCode(space: Space, level: Level): Instr
    requires ParallelPrintable(level)
  {
    var components := Components(level.v, level.base);
    match level.increment
    case Some(inc) =>
      var index := R(Index(space.Group(inc.dim)));
      if components == [] then Mul(LevelReg(level), index, NameSize(inc.step))
      else Mad(LevelReg(level), index, NameSize(inc.step), components[0])
    case None =>
      if components == [] then Mov(LevelReg(level), Lit(0)) else AssignCode(LevelReg(level), components)
  }

  function ParallelCodes(space: Space, levels: seq<Level>, n: nat): (r: seq<Instr>)
    requires n <= |levels| && forall k :: 0 <= k < n ==> ParallelPrintable(levels[k])
    ensures |r| == n
  {
    if n == 0 then [] else ParallelCodes(space, levels, n - 1) + [ParallelCode(space, levels[n - 1])]
  }

  /** A guard that holds for index 0 of the first `n` dimensions, when they are inactive. */
  function GuardCode(fun: Function, active: seq<Option<nat>>, n: nat, names: Names): (r: Emitted)
    requires n <= |active| <= |fun.threadDims|
    ensures r.names == names.(tmps := r.names.tmps, guard := r.names.guard) && names.tmps <= r.names.tmps
  {
    if n == 0 then Emitted([], names.(guard := None))
    else
      var e := GuardCode(fun, active, n - 1, names);
      if active[n - 1].Some? then e
      else
        var bit := Tmp(e.names.tmps);
        var test := Eq(bit, R(Index(fun.threadDims[n - 1])), Lit(0));
        if e.names.guard.None? then
          Emitted(e.code + [test], e.names.(tmps := e.names.tmps + 1, guard := Some(bit)))
        else
          Emitted(e.code + [test] + [And(e.names.guard.value, R(e.names.guard.value), R(bit))],
                  e.names.(tmps := e.names.tmps + 1))
  }

  function CfgCode(fun: Function, c: Cfg, names: Names): Emitted
    requires fun.Printable(c)
    decreases c, 0
  {
    match c
    case Root(body) => BodyCode(fun, body, names)
    case Loop(g, body) =>
      if fun.space.dims[g].kind.Loop? then
        var levels := fun.LoopLevels(g);
        var inner := BodyCode(fun, body, names.(labels := names.labels + 1));
        Emitted([Mov(Index(g), Lit(0))] + InitCode(levels, |levels|) + [Label(names.labels)] + inner.code +
                LoopEnd(fun, g, names.labels, inner.names.tmps),
                inner.names.(tmps := inner.names.tmps + 1))
      else
        var levels := fun.LoopLevels(g);
        var bases := UnrolledBases(levels, |levels|, names.tmps);
        var copies := CopiesCode(fun, g, body, bases, names.(tmps := UnrolledTmps(levels, |levels|, names.tmps)),
                                 fun.space.dims[g].size.n);
        Emitted(UnrolledInit(levels, |levels|, names.tmps) + copies.code, copies.names.(current := copies.names.current - {g}))
    case Threads(active, body) =>
      var guard := GuardCode(fun, active, |active|, names);
      var inner := BodyCode(fun, body, guard.names);
      Emitted(guard.code + ParallelCodes(fun.space, fun.ThreadLevels(active), |fun.ThreadLevels(active)|) + inner.code + [Sync], inner.names)
    case Inst(id) => Emitted([Exec(id, names.current, names.guard)], names)
  }

  function LoopEnd(fun: Function, g: nat, head: nat, tmp: nat): seq<Instr>
    requires g < |fun.space.dims|
  {
    AdvanceCode(fun.LoopLevels(g), |fun.LoopLevels(g)|) +
    [Add(Index(g), R(Index(g)), Lit(1)), Lt(Tmp(tmp), R(Index(g)), NameSize(fun.space.dims[g].size)),
     JumpIf(head, Tmp(tmp))]
  }

  function BodyCode(fun: Function, body: seq<Cfg>, names: Names): Emitted
    requires forall k :: 0 <= k < |body| ==> fun.Printable(body[k])
    decreases body, 0
  {
    if body == [] then Emitted([], names)
    else
      var first := BodyCode(fun, body[..|body| - 1], names);
      var last := CfgCode(fun, body[|body| - 1], first.names);
      Emitted(first.code + last.code, last.names)
  }

  /** The first `n` copies of the body of an unrolled loop. */
  function CopiesCode(fun: Function, g: nat, body: seq<Cfg>, bases: seq<Operand>, names: Names, n: nat): Emitted
    requires g < |fun.space.dims| && |bases| == |fun.LoopLevels(g)|
    requires forall k :: 0 <= k < |body| ==> fun.Printable(body[k])
    decreases body, n + 1
  {
    if n == 0 then Emitted([], names)
    else
      var before := CopiesCode(fun, g, body, bases, names, n - 1);
      var advance := if n > 1 then UnrolledAdvance(fun.LoopLevels(g), bases, |bases|, n - 1) else [];
      var copy := BodyCode(fun, body, before.names.(current := before.names.current[g := n - 1]));
      Emitted(before.code + advance + copy.code, copy.names)
  }

  /** Levels of the parallel dimensions first, then the body of the kernel. */
  function KernelCode(fun: Function, c: Cfg, names: Names): Emitted
    requires fun.Printable(c)
    requires forall k :: 0 <= k < |fun.blockDims| ==> fun.blockDims[k] < |fun.space.dims|
    requires forall k :: 0 <= k < |fun.InitLevels()| ==> ParallelPrintable(fun.InitLevels()[k])
  {
    var inner := CfgCode(fun, c, names);
    Emitted(ParallelCodes(fun.space, fun.InitLevels(), |fun.InitLevels()|) + inner.code, inner.names)
  }
}
