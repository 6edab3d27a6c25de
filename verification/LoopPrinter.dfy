/** The printer, which emits the code of a control flow graph instruction by instruction. */
module LoopPrinter {
  import opened Wrappers
  import opened InductionVars
  import opened LoopCode
  import opened LoopKernel

  lemma LoopCodeParts(fun: Function, g: nat, body: seq<Cfg>, names: Names)
    requires fun.Printable(Cfg.Loop(g, body)) && fun.space.dims[g].kind.Loop?
    ensures
      var levels := fun.LoopLevels(g);
      var inner := BodyCode(fun, body, names.(labels := names.labels + 1));
      CfgCode(fun, Cfg.Loop(g, body), names) ==
      Emitted([Mov(Index(g), Lit(0))] + InitCode(levels, |levels|) + [Label(names.labels)] + inner.code +
              LoopEnd(fun, g, names.labels, inner.names.tmps),
              inner.names.(tmps := inner.names.tmps + 1))
  {
  }

  lemma Regroup<T>(s: seq<T>, a: seq<T>, b: seq<T>, c: seq<T>, d: seq<T>, e: seq<T>)
    ensures s + a + b + c + d + e == s + (a + b + c + d + e)
  {
  }

  class Printer {
    var code: seq<Instr>
    var names: Names

    constructor ()
      ensures code == [] && names == NO_NAMES
    {
      code, names := [], NO_NAMES;
    }

    method Print(i: Instr)
      modifies this`code
      ensures code == old(code) + [i]
    {
      code := code + [i];
    }

    method GenName() returns (r: Reg)
      modifies this`names
      ensures r == Tmp(old(names.tmps)) && names == old(names).(tmps := old(names.tmps) + 1)
    {
      r := Tmp(names.tmps);
      names := names.(tmps := names.tmps + 1);
    }

    method GenLabel() returns (l: nat)
      modifies this`names
      ensures l == old(names.labels) && names == old(names).(labels := l + 1)
    {
      l := names.labels;
      names := names.(labels := l + 1);
    }

    /** Side effects only take place for index 0 of the thread dimensions that are not active. */
    method DisableThreads(fun: Function, active: seq<Option<nat>>)
      requires |active| == |fun.threadDims|
      modifies this
      ensures code == old(code) + GuardCode(fun, active, |active|, old(names)).code
      ensures names == GuardCode(fun, active, |active|, old(names)).names
    {
      names := names.(guard := None);
      for k := 0 to |active|
        invariant code == old(code) + GuardCode(fun, active, k, old(names)).code
        invariant names == GuardCode(fun, active, k, old(names)).names
      {
        if active[k].None? {
          var bit := GenName();
          Print(Eq(bit, R(Index(fun.threadDims[k])), Lit(0)));
          match names.guard {
            case Some(guard) => Print(And(guard, R(guard), R(bit)));
            case None => names := names.(guard := Some(bit));
          }
        }
      }
    }

    method ParallelInductionLevel(space: Space, level: Level)
      requires ParallelPrintable(level)
      modifies this`code
      ensures code == old(code) + [ParallelCode(space, level)]
    {
      var components := Components(level.v, level.base);
      match level.increment {
        case Some(inc) =>
          var index := R(Index(space.Group(inc.dim)));
          if components == [] {
            Print(Mul(LevelReg(level), index, NameSize(inc.step)));
          } else {
            Print(Mad(LevelReg(level), index, NameSize(inc.step), components[0]));
          }
        case None =>
          if components == [] {
            Print(Mov(LevelReg(level), Lit(0)));
          } else if |components| == 1 {
            Print(Mov(LevelReg(level), components[0]));
          } else {
            Print(Add(LevelReg(level), components[0], components[1]));
          }
      }
    }

    method ParallelInductionLevels(space: Space, levels: seq<Level>)
      requires forall k :: 0 <= k < |levels| ==> ParallelPrintable(levels[k])
      modifies this`code
      ensures code == old(code) + ParallelCodes(space, levels, |levels|)
    {
      for k := 0 to |levels|
        invariant code == old(code) + ParallelCodes(space, levels, k)
      {
        ParallelInductionLevel(space, levels[k]);
      }
    }

    method StartLevels(levels: seq<Level>)
      requires forall k :: 0 <= k < |levels| ==> levels[k].base.NumComponents() > 0
      modifies this`code
      ensures code == old(code) + InitCode(levels, |levels|)
    {
      for k := 0 to |levels|
        invariant code == old(code) + InitCode(levels, k)
      {
        var components := Components(levels[k].v, levels[k].base);
        if |components| == 1 {
          Print(Mov(LevelReg(levels[k]), components[0]));
        } else {
          Print(Add(LevelReg(levels[k]), components[0], components[1]));
        }
      }
    }

    method AdvanceLevels(levels: seq<Level>)
      modifies this`code
      ensures code == old(code) + AdvanceCode(levels, |levels|)
    {
      for k := 0 to |levels|
        invariant code == old(code) + AdvanceCode(levels, k)
      {
        if levels[k].increment.Some? {
          Print(Add(LevelReg(levels[k]), R(LevelReg(levels[k])), NameSize(levels[k].increment.value.step)));
        }
      }
    }

    /** A loop with an index and a jump to its beginning. */
    method StandardLoop(fun: Function, g: nat, body: seq<Cfg>)
      requires fun.Printable(Cfg.Loop(g, body)) && fun.space.dims[g].kind.Loop?
      modifies this
      ensures code == old(code) + CfgCode(fun, Cfg.Loop(g, body), old(names)).code
      ensures names == CfgCode(fun, Cfg.Loop(g, body), old(names)).names
      decreases Cfg.Loop(g, body), 0
    {
      var levels := fun.LoopLevels(g);
      Print(Mov(Index(g), Lit(0)));
      var head := GenLabel();
      StartLevels(levels);
      Print(Label(head));
      CfgVec(fun, body);
      ghost var inner := BodyCode(fun, body, old(names).(labels := head + 1));
      EndLoop(fun, g, head);
      Regroup(old(code), [Mov(Index(g), Lit(0))], InitCode(levels, |levels|), [Label(head)], inner.code, LoopEnd(fun, g, head, inner.names.tmps));
      LoopCodeParts(fun, g, body, old(names));
    }

    method EndLoop(fun: Function, g: nat, head: nat)
      requires g < |fun.space.dims|
      modifies this
      ensures code == old(code) + LoopEnd(fun, g, head, old(names.tmps))
      ensures names == old(names).(tmps := old(names.tmps) + 1)
    {
      AdvanceLevels(fun.LoopLevels(g));
      Print(Add(Index(g), R(Index(g)), Lit(1)));
      var cond := GenName();
      Print(Lt(cond, R(Index(g)), NameSize(fun.space.dims[g].size)));
      Print(JumpIf(head, cond));
    }

    /** A loop without jumps: its body is printed once per index. */
    method UnrollLoop(fun: Function, g: nat, body: seq<Cfg>)
      requires fun.Printable(Cfg.Loop(g, body)) && fun.space.dims[g].kind.Unroll?
      modifies this
      ensures code == old(code) + CfgCode(fun, Cfg.Loop(g, body), old(names)).code
      ensures names == CfgCode(fun, Cfg.Loop(g, body), old(names)).names
      decreases Cfg.Loop(g, body), 0
    {
      var levels := fun.LoopLevels(g);
      var bases := UnrollInit(levels);
      ghost var start, n1 := code, names;
      for i := 0 to fun.space.dims[g].size.n
        invariant code == start + CopiesCode(fun, g, body, bases, n1, i).code
        invariant names == CopiesCode(fun, g, body, bases, n1, i).names
      {
        UnrollCopy(fun, g, body, bases, i, n1);
      }
      names := names.(current := names.current - {g});
    }

    /** The copy of an unrolled body for index `i`, after those for smaller indexes. */
    method UnrollCopy(fun: Function, g: nat, body: seq<Cfg>, bases: seq<Operand>, i: nat, ghost first: Names)
      requires fun.Printable(Cfg.Loop(g, body)) && fun.space.dims[g].kind.Unroll?
      requires |bases| == |fun.LoopLevels(g)| && names == CopiesCode(fun, g, body, bases, first, i).names
      modifies this
      ensures forall start :: old(code) == start + CopiesCode(fun, g, body, bases, first, i).code ==>
                code == start + CopiesCode(fun, g, body, bases, first, i + 1).code
      ensures names == CopiesCode(fun, g, body, bases, first, i + 1).names
      decreases body, 1
    {
      names := names.(current := names.current[g := i]);
      if i > 0 {
        UnrollAdvance(fun.LoopLevels(g), bases, i);
      }
      CfgVec(fun, body);
    }

    method UnrollInit(levels: seq<Level>) returns (bases: seq<Operand>)
      requires forall k :: 0 <= k < |levels| ==> levels[k].base.NumComponents() > 0
      modifies this
      ensures code == old(code) + UnrolledInit(levels, |levels|, old(names.tmps))
      ensures names == old(names).(tmps := UnrolledTmps(levels, |levels|, old(names.tmps)))
      ensures bases == UnrolledBases(levels, |levels|, old(names.tmps))
    {
      bases := [];
      for k := 0 to |levels|
        invariant code == old(code) + UnrolledInit(levels, k, old(names.tmps))
        invariant names == old(names).(tmps := UnrolledTmps(levels, k, old(names.tmps)))
        invariant bases == UnrolledBases(levels, k, old(names.tmps))
      {
        var components := Components(levels[k].v, levels[k].base);
        var base := components[0];
        if |components| == 2 {
          var tmp := GenName();
          Print(Add(tmp, components[0], components[1]));
          base := R(tmp);
        }
        Print(Mov(LevelReg(levels[k]), base));
        bases := bases + [base];
      }
    }

    method UnrollAdvance(levels: seq<Level>, bases: seq<Operand>, i: nat)
      requires |bases| == |levels|
      modifies this`code
      ensures code == old(code) + UnrolledAdvance(levels, bases, |levels|, i)
    {
      for k := 0 to |levels|
        invariant code == old(code) + UnrolledAdvance(levels, bases, k, i)
      {
        if levels[k].increment.Some? {
          var step := levels[k].increment.value.step;
          if step.Const? {
            Print(Add(LevelReg(levels[k]), Lit(step.n * i), bases[k]));
          } else {
            Print(Add(LevelReg(levels[k]), NameSize(step), R(LevelReg(levels[k]))));
          }
        }
      }
    }

    method CfgVec(fun: Function, body: seq<Cfg>)
      requires forall k :: 0 <= k < |body| ==> fun.Printable(body[k])
      modifies this
      ensures code == old(code) + BodyCode(fun, body, old(names)).code
      ensures names == BodyCode(fun, body, old(names)).names
      decreases body, 0
    {
      for k := 0 to |body|
        invariant code == old(code) + BodyCode(fun, body[..k], old(names)).code
        invariant names == BodyCode(fun, body[..k], old(names)).names
      {
        assert body[..k + 1][..k] == body[..k];
        PrintCfg(fun, body[k]);
      }
      assert body[..|body|] == body;
    }

    method PrintCfg(fun: Function, c: Cfg)
      requires fun.Printable(c)
      modifies this
      ensures code == old(code) + CfgCode(fun, c, old(names)).code
      ensures names == CfgCode(fun, c, old(names)).names
      decreases c, 1
    {
      match c {
        case Root(body) => CfgVec(fun, body);
        case Loop(g, body) =>
          if fun.space.dims[g].kind.Loop? {
            StandardLoop(fun, g, body);
          } else {
            UnrollLoop(fun, g, body);
          }
        case Threads(active, body) =>
          DisableThreads(fun, active);
          ParallelInductionLevels(fun.space, fun.ThreadLevels(active));
          CfgVec(fun, body);
          Print(Sync);
        case Inst(id) => Print(Exec(id, names.current, names.guard));
      }
    }

    /** The levels of block and thread dimensions, then the loop nest. */
    method PrintKernel(fun: Function, c: Cfg)
      requires fun.Printable(c) && code == [] && names == NO_NAMES
      requires forall k :: 0 <= k < |fun.blockDims| ==> fun.blockDims[k] < |fun.space.dims|
      requires forall k :: 0 <= k < |fun.InitLevels()| ==> ParallelPrintable(fun.InitLevels()[k])
      modifies this
      ensures code == KernelCode(fun, c, NO_NAMES).code
    {
      ParallelInductionLevels(fun.space, fun.InitLevels());
      PrintCfg(fun, c);
    }
  }
}
