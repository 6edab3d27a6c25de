/** The printed code does exactly what its loop nest means. */
module LoopTheorem {
  import opened Wrappers
  import opened InductionVars
  import opened InductionLevels
  import opened LoopCode
  import opened StraightCode
  import opened Triples
  import opened LoopMeaning
  import opened LoopCorrect
  import opened LoopRun

  // ----- Labels -----

  /** The labels of a fragment are distinct and lie between `lo` and `hi`. */
  ghost predicate FreshLabels(code: seq<Instr>, lo: nat, hi: nat) {
    && lo <= hi
    && (forall i :: 0 <= i < |code| && code[i].Label? ==> lo <= code[i].l < hi)
    && (forall i, j :: 0 <= i < j < |code| && code[i].Label? ==> code[i] != code[j])
  }

  lemma FreshConcat(a: seq<Instr>, b: seq<Instr>, lo: nat, mid: nat, hi: nat)
    requires FreshLabels(a, lo, mid) && FreshLabels(b, mid, hi)
    ensures FreshLabels(a + b, lo, hi)
  {
    forall i, j | 0 <= i < j < |a + b| && (a + b)[i].Label? ensures (a + b)[i] != (a + b)[j] {
      if i < |a| <= j {
        assert (a + b)[j] == b[j - |a|];
      }
    }
  }

  ghost predicate NoLabel(code: seq<Instr>) {
    forall i :: 0 <= i < |code| ==> !code[i].Label?
  }

  lemma FreshNone(code: seq<Instr>, lo: nat)
    requires NoLabel(code)
    ensures FreshLabels(code, lo, lo)
  {
  }

  lemma {:induction false} InitNoLabel(levels: seq<Level>, n: nat)
    requires n <= |levels| && forall k :: 0 <= k < n ==> levels[k].base.NumComponents() > 0
    ensures NoLabel(InitCode(levels, n))
  {
    if n > 0 { InitNoLabel(levels, n - 1); }
  }

  lemma {:induction false} AdvanceNoLabel(levels: seq<Level>, n: nat)
    requires n <= |levels|
    ensures NoLabel(AdvanceCode(levels, n))
  {
    if n > 0 { AdvanceNoLabel(levels, n - 1); }
  }

  lemma {:induction false} UnrolledInitNoLabel(levels: seq<Level>, n: nat, tmps: nat)
    requires n <= |levels| && forall k :: 0 <= k < n ==> levels[k].base.NumComponents() > 0
    ensures NoLabel(UnrolledInit(levels, n, tmps))
  {
    if n > 0 { UnrolledInitNoLabel(levels, n - 1, tmps); }
  }

  lemma {:induction false} UnrolledAdvanceNoLabel(levels: seq<Level>, bases: seq<Operand>, n: nat, i: nat)
    requires n <= |levels| == |bases|
    ensures NoLabel(UnrolledAdvance(levels, bases, n, i))
  {
    if n > 0 { UnrolledAdvanceNoLabel(levels, bases, n - 1, i); }
  }

  lemma {:induction false} ParallelNoLabel(space: Space, levels: seq<Level>, n: nat)
    requires n <= |levels| && forall k :: 0 <= k < n ==> ParallelPrintable(levels[k])
    ensures NoLabel(ParallelCodes(space, levels, n))
  {
    if n > 0 { ParallelNoLabel(space, levels, n - 1); }
  }

  lemma {:induction false} GuardNoLabel(fun: Function, active: seq<Option<nat>>, n: nat, names: Names)
    requires n <= |active| <= |fun.threadDims|
    ensures NoLabel(GuardCode(fun, active, n, names).code)
    ensures GuardCode(fun, active, n, names).names.labels == names.labels
  {
    if n > 0 { GuardNoLabel(fun, active, n - 1, names); }
  }

  lemma {:induction false} CfgLabels(fun: Function, c: Cfg, names: Names)
    requires fun.Printable(c)
    ensures FreshLabels(CfgCode(fun, c, names).code, names.labels, CfgCode(fun, c, names).names.labels)
    decreases c, 1
  {
    match c
    case Root(body) => BodyLabels(fun, body, names);
    case Loop(g, body) =>
      if fun.space.dims[g].kind.Loop? {
        LoopLabels(fun, g, body, names);
      } else {
        UnrolledLabels(fun, g, body, names);
      }
    case Threads(active, body) => ThreadsLabels(fun, active, body, names);
    case Inst(_) =>
  }

  lemma {:induction false} BodyLabels(fun: Function, body: seq<Cfg>, names: Names)
    requires forall k :: 0 <= k < |body| ==> fun.Printable(body[k])
    ensures FreshLabels(BodyCode(fun, body, names).code, names.labels, BodyCode(fun, body, names).names.labels)
    decreases body, 0
  {
    if body != [] {
      var n := |body| - 1;
      var first := BodyCode(fun, body[..n], names);
      BodyLabels(fun, body[..n], names);
      CfgLabels(fun, body[n], first.names);
      FreshConcat(first.code, CfgCode(fun, body[n], first.names).code, names.labels, first.names.labels,
                  CfgCode(fun, body[n], first.names).names.labels);
    }
  }

  lemma {:induction false} LoopLabels(fun: Function, g: nat, body: seq<Cfg>, names: Names)
    requires fun.Printable(Cfg.Loop(g, body)) && fun.space.dims[g].kind.Loop?
    ensures FreshLabels(CfgCode(fun, Cfg.Loop(g, body), names).code, names.labels, CfgCode(fun, Cfg.Loop(g, body), names).names.labels)
    decreases Cfg.Loop(g, body), 0
  {
    var l := names.labels;
    var levels := fun.LoopLevels(g);
    var inner := BodyCode(fun, body, names.(labels := l + 1));
    var opening := [Mov(Index(g), Lit(0))] + InitCode(levels, |levels|);
    var end := LoopEnd(fun, g, l, inner.names.tmps);
    InitNoLabel(levels, |levels|);
    FreshNone(opening, l);
    FreshConcat(opening, [Label(l)], l, l, l + 1);
    BodyLabels(fun, body, names.(labels := l + 1));
    FreshConcat(opening + [Label(l)], inner.code, l, l + 1, inner.names.labels);
    AdvanceNoLabel(levels, |levels|);
    FreshNone(end, inner.names.labels);
    FreshConcat(opening + [Label(l)] + inner.code, end, l, inner.names.labels, inner.names.labels);
  }

  lemma {:induction false} UnrolledLabels(fun: Function, g: nat, body: seq<Cfg>, names: Names)
    requires fun.Printable(Cfg.Loop(g, body)) && fun.space.dims[g].kind.Unroll?
    ensures FreshLabels(CfgCode(fun, Cfg.Loop(g, body), names).code, names.labels, CfgCode(fun, Cfg.Loop(g, body), names).names.labels)
    decreases Cfg.Loop(g, body), 0
  {
    var levels := fun.LoopLevels(g);
    var bases := UnrolledBases(levels, |levels|, names.tmps);
    var n1 := names.(tmps := UnrolledTmps(levels, |levels|, names.tmps));
    UnrolledInitNoLabel(levels, |levels|, names.tmps);
    FreshNone(UnrolledInit(levels, |levels|, names.tmps), names.labels);
    var copies := CopiesCode(fun, g, body, bases, n1, fun.space.dims[g].size.n);
    CopiesLabels(fun, g, body, bases, n1, fun.space.dims[g].size.n);
    FreshConcat(UnrolledInit(levels, |levels|, names.tmps), copies.code, names.labels, names.labels, copies.names.labels);
  }

  lemma {:induction false} CopiesLabels(fun: Function, g: nat, body: seq<Cfg>, bases: seq<Operand>, names: Names, n: nat)
    requires g < |fun.space.dims| && |bases| == |fun.LoopLevels(g)|
    requires forall k :: 0 <= k < |body| ==> fun.Printable(body[k])
    ensures FreshLabels(CopiesCode(fun, g, body, bases, names, n).code, names.labels, CopiesCode(fun, g, body, bases, names, n).names.labels)
    decreases body, n + 1
  {
    if n > 0 {
      var before := CopiesCode(fun, g, body, bases, names, n - 1);
      var advance := if n > 1 then UnrolledAdvance(fun.LoopLevels(g), bases, |bases|, n - 1) else [];
      var n1 := before.names.(current := before.names.current[g := n - 1]);
      var copy := BodyCode(fun, body, n1);
      CopiesLabels(fun, g, body, bases, names, n - 1);
      UnrolledAdvanceNoLabel(fun.LoopLevels(g), bases, |bases|, n - 1);
      FreshNone(advance, before.names.labels);
      FreshConcat(before.code, advance, names.labels, before.names.labels, before.names.labels);
      BodyLabels(fun, body, n1);
      FreshConcat(before.code + advance, copy.code, names.labels, before.names.labels, copy.names.labels);
    }
  }

  lemma {:induction false} ThreadsLabels(fun: Function, active: seq<Option<nat>>, body: seq<Cfg>, names: Names)
    requires fun.Printable(Threads(active, body))
    ensures FreshLabels(CfgCode(fun, Threads(active, body), names).code, names.labels, CfgCode(fun, Threads(active, body), names).names.labels)
    decreases Threads(active, body), 0
  {
    var guard := GuardCode(fun, active, |active|, names);
    var levels := fun.ThreadLevels(active);
    var parallel := ParallelCodes(fun.space, levels, |levels|);
    var inner := BodyCode(fun, body, guard.names);
    GuardNoLabel(fun, active, |active|, names);
    ParallelNoLabel(fun.space, levels, |levels|);
    FreshNone(guard.code + parallel, names.labels);
    BodyLabels(fun, body, guard.names);
    FreshConcat(guard.code + parallel, inner.code, names.labels, names.labels, inner.names.labels);
    FreshNone([Sync], inner.names.labels);
    FreshConcat(guard.code + parallel + inner.code, [Sync], names.labels, inner.names.labels, inner.names.labels);
  }

  lemma FreshAreUnique(code: seq<Instr>, lo: nat, hi: nat)
    requires FreshLabels(code, lo, hi)
    ensures UniqueLabels(code)
  {
    forall i | 0 <= i < |code| && code[i].Label? ensures Find(code, code[i].l) == i {
      var pos := Find(code, code[i].l);
      assert code[i] == Label(code[i].l);
    }
  }

  // ----- Positions -----

  /** The references of a loop, one per index. */
  ghost function BodyRefs(w: World, body: seq<Cfg>, ctx: Ctx, g: nat): nat -> seq<RefEvent>
    requires forall k :: 0 <= k < |body| ==> w.fun.Printable(body[k])
  {
    (i: nat) => RefBody(w.fun, w.vals, body, EnterLoop(ctx, g, i))
  }

  lemma {:induction false} IterationsAreRepeated(w: World, g: nat, body: seq<Cfg>, ctx: Ctx, n: nat)
    requires forall k :: 0 <= k < |body| ==> w.fun.Printable(body[k])
    ensures RefIterations(w.fun, w.vals, g, body, ctx, n) == Repeated(BodyRefs(w, body, ctx, g), n)
  {
    if n > 0 {
      IterationsAreRepeated(w, g, body, ctx, n - 1);
      assert BodyRefs(w, body, ctx, g)(n - 1) == RefBody(w.fun, w.vals, body, EnterLoop(ctx, g, n - 1));
    }
  }

  lemma AtParts(code: seq<Instr>, p: nat, a: seq<Instr>, i: Instr, c: seq<Instr>, d: seq<Instr>)
    requires At(code, p, a + [i] + c + d)
    ensures At(code, p, a) && p + |a| < |code| && code[p + |a|] == i && At(code, p + |a| + 1, c) && At(code, p + |a| + 1 + |c|, d)
  {
    AtConcat(code, p, a + [i] + c, d);
    AtConcat(code, p, a + [i], c);
    AtConcat(code, p, a, [i]);
    assert code[p + |a|] == [i][0];
  }

  function LoopInner(w: World, body: seq<Cfg>, names: Names): Emitted
    requires forall k :: 0 <= k < |body| ==> w.fun.Printable(body[k])
  {
    BodyCode(w.fun, body, names.(labels := names.labels + 1))
  }

  lemma LoopCodeIs(w: World, g: nat, body: seq<Cfg>, names: Names)
    requires w.fun.Printable(Cfg.Loop(g, body)) && w.fun.space.dims[g].kind.Loop?
    ensures
      var inner := LoopInner(w, body, names);
      CfgCode(w.fun, Cfg.Loop(g, body), names).code ==
      Opening(g, w.fun.LoopLevels(g)) + [Label(names.labels)] + inner.code + LoopEnd(w.fun, g, names.labels, inner.names.tmps)
  {
  }

  lemma LoopPositions(w: World, p: nat, q: nat, g: nat, body: seq<Cfg>, names: Names)
    returns (p0: nat, p1: nat, p': nat, jump: nat)
    requires w.fun.Printable(Cfg.Loop(g, body)) && w.fun.space.dims[g].kind.Loop? && UniqueLabels(w.code)
    requires At(w.code, p, CfgCode(w.fun, Cfg.Loop(g, body), names).code) && q == p + |CfgCode(w.fun, Cfg.Loop(g, body), names).code|
    ensures
      var levels := w.fun.LoopLevels(g);
      var inner := LoopInner(w, body, names);
      && p0 == p + |Opening(g, levels)| && At(w.code, p, Opening(g, levels))
      && p1 == p0 + 1 && p' == p1 + |inner.code| && At(w.code, p1, inner.code)
      && LoopAt(w, p0, p1, p', jump, q, names.labels, inner.names.tmps, g, LoopTest(levels, g, w.fun.space.dims[g].size, inner.names.tmps))
  {
    LoopCodeIs(w, g, body, names);
    var inner := LoopInner(w, body, names);
    p0, p1, p', jump := PartPositions(w, p, q, g, Opening(g, w.fun.LoopLevels(g)), names.labels, inner.code, inner.names.tmps);
  }

  lemma PartPositions(w: World, p: nat, q: nat, g: nat, opening: seq<Instr>, l: nat, inner: seq<Instr>, tmp: nat)
    returns (p0: nat, p1: nat, p': nat, jump: nat)
    requires g < |w.fun.space.dims| && w.fun.space.dims[g].kind.Loop? && UniqueLabels(w.code)
    requires At(w.code, p, opening + [Label(l)] + inner + LoopEnd(w.fun, g, l, tmp))
    requires q == p + |opening + [Label(l)] + inner + LoopEnd(w.fun, g, l, tmp)|
    ensures p0 == p + |opening| && At(w.code, p, opening) && p1 == p0 + 1 && p' == p1 + |inner| && At(w.code, p1, inner)
    ensures LoopAt(w, p0, p1, p', jump, q, l, tmp, g, LoopTest(w.fun.LoopLevels(g), g, w.fun.space.dims[g].size, tmp))
  {
    var end := LoopEnd(w.fun, g, l, tmp);
    AtParts(w.code, p, opening, Label(l), inner, end);
    p0 := p + |opening|;
    assert Find(w.code, l) == p0;
    p1 := p0 + 1;
    p' := p1 + |inner|;
    jump := p' + |end| - 1;
    EndAt(w.code, p', w.fun, g, l, tmp);
  }

  lemma EndAt(code: seq<Instr>, p: nat, fun: Function, g: nat, l: nat, tmp: nat)
    requires g < |fun.space.dims| && At(code, p, LoopEnd(fun, g, l, tmp))
    ensures
      var test := LoopTest(fun.LoopLevels(g), g, fun.space.dims[g].size, tmp);
      && At(code, p, test) && |LoopEnd(fun, g, l, tmp)| == |test| + 1
      && p + |test| < |code| && code[p + |test|] == JumpIf(l, Tmp(tmp))
  {
    var test := LoopTest(fun.LoopLevels(g), g, fun.space.dims[g].size, tmp);
    assert LoopEnd(fun, g, l, tmp) == test + [JumpIf(l, Tmp(tmp))];
    AtConcat(code, p, test, [JumpIf(l, Tmp(tmp))]);
    assert code[p + |test|] == [JumpIf(l, Tmp(tmp))][0];
  }

  // ----- Names -----

  /** Printing leaves the current indexes as they were, and inside threads the guard. */
  ghost predicate NamesKept(names: Names, names': Names, inThreads: bool) {
    names.tmps <= names'.tmps && names'.current == names.current && (inThreads ==> names'.guard == names.guard)
  }

  lemma {:induction false} CfgNames(fun: Function, vals: Vals, c: Cfg, names: Names, keys: set<nat>, inThreads: bool)
    requires fun.Printable(c) && WellNested(fun, vals, c, keys, inThreads) && names.current.Keys <= keys
    ensures NamesKept(names, CfgCode(fun, c, names).names, inThreads)
    decreases c, 1
  {
    match c
    case Root(body) => BodyNames(fun, vals, body, names, keys, inThreads);
    case Loop(g, body) =>
      if fun.space.dims[g].kind.Loop? {
        BodyNames(fun, vals, body, names.(labels := names.labels + 1), keys + {g}, inThreads);
      } else {
        var levels := fun.LoopLevels(g);
        var n1 := names.(tmps := UnrolledTmps(levels, |levels|, names.tmps));
        CopiesNames(fun, vals, g, body, UnrolledBases(levels, |levels|, names.tmps), n1, keys, inThreads, fun.space.dims[g].size.n);
      }
    case Threads(active, body) =>
      BodyNames(fun, vals, body, GuardCode(fun, active, |active|, names).names, keys, true);
    case Inst(_) =>
  }

  lemma {:induction false} BodyNames(fun: Function, vals: Vals, body: seq<Cfg>, names: Names, keys: set<nat>, inThreads: bool)
    requires forall k :: 0 <= k < |body| ==> fun.Printable(body[k]) && WellNested(fun, vals, body[k], keys, inThreads)
    requires names.current.Keys <= keys
    ensures NamesKept(names, BodyCode(fun, body, names).names, inThreads)
    decreases body, 0
  {
    if body != [] {
      var n := |body| - 1;
      BodyNames(fun, vals, body[..n], names, keys, inThreads);
      CfgNames(fun, vals, body[n], BodyCode(fun, body[..n], names).names, keys, inThreads);
    }
  }

  lemma {:induction false} CopiesNames(fun: Function, vals: Vals, g: nat, body: seq<Cfg>, bases: seq<Operand>, names: Names, keys: set<nat>, inThreads: bool, n: nat)
    requires g < |fun.space.dims| && |bases| == |fun.LoopLevels(g)| && g !in keys
    requires forall k :: 0 <= k < |body| ==> fun.Printable(body[k]) && WellNested(fun, vals, body[k], keys + {g}, inThreads)
    requires names.current.Keys <= keys
    ensures
      var names' := CopiesCode(fun, g, body, bases, names, n).names;
      NamesKept(names, names'.(current := names'.current - {g}), inThreads) && names'.current.Keys <= keys + {g}
    decreases body, n + 1
  {
    if n == 0 {
      assert names.current - {g} == names.current;
    } else {
      CopiesNames(fun, vals, g, body, bases, names, keys, inThreads, n - 1);
      var before := CopiesCode(fun, g, body, bases, names, n - 1).names;
      var n1 := before.(current := before.current[g := n - 1]);
      BodyNames(fun, vals, body, n1, keys + {g}, inThreads);
      assert n1.current - {g} == before.current - {g};
    }
  }

  lemma FixedAfter(w: World, ctx: Ctx, start: Names, names: Names, c: Cfg, regs0: Regs)
    requires Fixed(w, ctx, start, names, regs0) && w.fun.Printable(c) && WellNested(w.fun, w.vals, c, ctx.env.Keys, ctx.inThreads)
    ensures Fixed(w, ctx, start, CfgCode(w.fun, c, names).names, regs0)
  {
    CfgNames(w.fun, w.vals, c, names, ctx.env.Keys, ctx.inThreads);
  }

  // ----- Runs -----

  /** What running a piece of the graph requires. */
  ghost predicate Site(w: World, p: nat, q: nat, frag: seq<Instr>, ctx: Ctx, start: Names, names: Names, regs0: Regs, pre: Point) {
    && w.Ok() && Fixed(w, ctx, start, names, regs0) && pre == Inside(ctx, start.tmps, regs0)
    && At(w.code, p, frag) && q == p + |frag|
  }

  lemma {:induction false} RunCfg(w: World, p: nat, q: nat, c: Cfg, ctx: Ctx, start: Names, names: Names, regs0: Regs, pre: Point)
    requires w.fun.Printable(c) && WellNested(w.fun, w.vals, c, ctx.env.Keys, ctx.inThreads)
    requires Site(w, p, q, CfgCode(w.fun, c, names).code, ctx, start, names, regs0, pre)
    ensures Triple(w.Program(), p, q, pre, pre, RefTrace(w.fun, w.vals, c, ctx))
    ensures Fixed(w, ctx, start, CfgCode(w.fun, c, names).names, regs0)
    decreases c, 1
  {
    match c
    case Root(body) => RunBody(w, p, q, body, ctx, start, names, regs0, pre);
    case Loop(g, body) =>
      if w.fun.space.dims[g].kind.Loop? {
        RunLoop(w, p, q, g, body, ctx, start, names, regs0, pre);
      } else {
        RunUnrolledLoop(w, p, q, g, body, ctx, start, names, regs0, pre);
      }
    case Threads(active, body) => RunThreads(w, p, q, active, body, ctx, start, names, regs0, pre);
    case Inst(id) =>
      assert w.code[p] == [Exec(id, names.current, names.guard)][0];
      DoInst(w, p, q, ctx, start, names, regs0, id, pre);
  }

  lemma BodyCodeIs(fun: Function, body: seq<Cfg>, names: Names)
    requires body != [] && forall k :: 0 <= k < |body| ==> fun.Printable(body[k])
    ensures
      var first := BodyCode(fun, body[..|body| - 1], names);
      BodyCode(fun, body, names).code == first.code + CfgCode(fun, body[|body| - 1], first.names).code
  {
  }

  lemma SplitAt(code: seq<Instr>, p: nat, q: nat, whole: seq<Instr>, a: seq<Instr>, b: seq<Instr>)
    requires At(code, p, whole) && q == p + |whole| && whole == a + b
    ensures At(code, p, a) && At(code, p + |a|, b) && q == p + |a| + |b|
  {
    AtConcat(code, p, a, b);
  }

  lemma SplitSite(w: World, p: nat, q: nat, body: seq<Cfg>, ctx: Ctx, start: Names, names: Names, regs0: Regs, pre: Point) returns (r: nat)
    requires body != [] && forall k :: 0 <= k < |body| ==> w.fun.Printable(body[k])
    requires Site(w, p, q, BodyCode(w.fun, body, names).code, ctx, start, names, regs0, pre)
    ensures
      var first := BodyCode(w.fun, body[..|body| - 1], names);
      var last := CfgCode(w.fun, body[|body| - 1], first.names);
      && Site(w, p, r, first.code, ctx, start, names, regs0, pre)
      && At(w.code, r, last.code) && q == r + |last.code|
  {
    var first := BodyCode(w.fun, body[..|body| - 1], names);
    r := p + |first.code|;
    BodyCodeIs(w.fun, body, names);
    SplitAt(w.code, p, q, BodyCode(w.fun, body, names).code, first.code, CfgCode(w.fun, body[|body| - 1], first.names).code);
  }

  lemma BodyPrefix(w: World, body: seq<Cfg>, ctx: Ctx)
    requires body != [] && forall k :: 0 <= k < |body| ==> w.fun.Printable(body[k])
    requires forall k :: 0 <= k < |body| ==> WellNested(w.fun, w.vals, body[k], ctx.env.Keys, ctx.inThreads)
    ensures
      var before := body[..|body| - 1];
      forall k :: 0 <= k < |before| ==> w.fun.Printable(before[k]) && WellNested(w.fun, w.vals, before[k], ctx.env.Keys, ctx.inThreads)
  {
  }

  lemma {:induction false} RunBody(w: World, p: nat, q: nat, body: seq<Cfg>, ctx: Ctx, start: Names, names: Names, regs0: Regs, pre: Point)
    requires forall k :: 0 <= k < |body| ==> w.fun.Printable(body[k])
    requires forall k :: 0 <= k < |body| ==> WellNested(w.fun, w.vals, body[k], ctx.env.Keys, ctx.inThreads)
    requires Site(w, p, q, BodyCode(w.fun, body, names).code, ctx, start, names, regs0, pre)
    ensures Triple(w.Program(), p, q, pre, pre, RefBody(w.fun, w.vals, body, ctx))
    ensures Fixed(w, ctx, start, BodyCode(w.fun, body, names).names, regs0)
    decreases body, 0
  {
    if body == [] {
      TripleEmpty(w.Program(), p, pre);
    } else {
      var n := |body| - 1;
      var first := BodyCode(w.fun, body[..n], names);
      var last := CfgCode(w.fun, body[n], first.names);
      var r := SplitSite(w, p, q, body, ctx, start, names, regs0, pre);
      BodyPrefix(w, body, ctx);
      RunBody(w, p, r, body[..n], ctx, start, names, regs0, pre);
      RunCfg(w, r, q, body[n], ctx, start, first.names, regs0, pre);
      var ra, rb, ref := RefBody(w.fun, w.vals, body[..n], ctx), RefTrace(w.fun, w.vals, body[n], ctx), RefBody(w.fun, w.vals, body, ctx);
      TripleThen(w.Program(), p, r, q, pre, pre, pre, ra, rb, ref);
    }
  }

  // ----- Sequential loops -----

  /** The names the body of a loop starts from, and leaves. */
  lemma EnterFixed(w: World, ctx: Ctx, start: Names, names: Names, regs0: Regs, g: nat, i: nat)
    requires Fixed(w, ctx, start, names, regs0) && CanEnter(w.fun.space, ctx, g) && w.fun.space.dims[g].kind.Loop?
    ensures Fixed(w, EnterLoop(ctx, g, i), start, names.(labels := names.labels + 1), regs0)
  {
    var inner := EnterLoop(ctx, g, i);
    assert inner.env.Keys == ctx.env.Keys + {g};
  }

  lemma LeaveFixed(w: World, ctx: Ctx, start: Names, names: Names, regs0: Regs, g: nat, i: nat)
    requires Fixed(w, EnterLoop(ctx, g, i), start, names, regs0) && CanEnter(w.fun.space, ctx, g)
    requires !ctx.inThreads ==> ctx.active == {}
    ensures Fixed(w, ctx, start, names.(current := names.current - {g}), regs0)
    ensures w.fun.space.dims[g].kind.Loop? ==> Fixed(w, ctx, start, names, regs0)
  {
    if w.fun.space.dims[g].kind.Loop? {
      assert names.current - {g} == names.current;
    }
  }

  lemma CanEnterLoop(w: World, ctx: Ctx, g: nat, body: seq<Cfg>)
    requires CtxOk(w.fun.space, ctx) && WellNested(w.fun, w.vals, Cfg.Loop(g, body), ctx.env.Keys, ctx.inThreads)
    requires w.fun.Printable(Cfg.Loop(g, body))
    ensures CanEnter(w.fun.space, ctx, g)
  {
  }

  lemma LoopIsReady(w: World, ctx: Ctx, g: nat)
    requires w.fun.Valid() && CanEnter(w.fun.space, ctx, g) && w.fun.space.dims[g].kind.Loop?
    ensures LoopReady(w, ctx, g)
  {
    LevelsReady(w.fun, w.vals, ctx, g);
    assert !Determined(w.fun.space, ctx, Index(g));
  }

  /** The body of a loop lies from `p` to `q`. */
  ghost predicate LoopBodySite(w: World, p: nat, q: nat, g: nat, body: seq<Cfg>, ctx: Ctx, start: Names, names: Names, regs0: Regs) {
    && w.Ok() && Fixed(w, ctx, start, names, regs0) && CanEnter(w.fun.space, ctx, g) && w.fun.space.dims[g].kind.Loop?
    && (forall k :: 0 <= k < |body| ==> w.fun.Printable(body[k]))
    && (forall k :: 0 <= k < |body| ==> WellNested(w.fun, w.vals, body[k], ctx.env.Keys + {g}, ctx.inThreads))
    && At(w.code, p, LoopInner(w, body, names).code) && q == p + |LoopInner(w, body, names).code|
  }

  lemma EnterSite(w: World, p: nat, q: nat, g: nat, body: seq<Cfg>, ctx: Ctx, start: Names, names: Names, regs0: Regs, i: nat, inner: Ctx, n1: Names, pre: Point)
    requires LoopBodySite(w, p, q, g, body, ctx, start, names, regs0) && pre == Inside(inner, start.tmps, regs0)
    requires inner == EnterLoop(ctx, g, i) && n1 == names.(labels := names.labels + 1)
    ensures Site(w, p, q, BodyCode(w.fun, body, n1).code, inner, start, n1, regs0, pre)
    ensures inner.env.Keys == ctx.env.Keys + {g}
  {
    assert inner.env.Keys == ctx.env.Keys + {g};
    EnterFixed(w, ctx, start, names, regs0, g, i);
  }

  lemma {:induction false} RunLoopBody(w: World, p: nat, q: nat, g: nat, body: seq<Cfg>, ctx: Ctx, start: Names, names: Names, regs0: Regs, i: nat)
    requires LoopBodySite(w, p, q, g, body, ctx, start, names, regs0)
    ensures BodyOk(w, p, q, ctx, g, start.tmps, regs0, BodyRefs(w, body, ctx, g), i)
    ensures Fixed(w, ctx, start, LoopInner(w, body, names).names, regs0)
    decreases body, 1
  {
    var inner, n1 := EnterLoop(ctx, g, i), names.(labels := names.labels + 1);
    var pre := Inside(inner, start.tmps, regs0);
    EnterSite(w, p, q, g, body, ctx, start, names, regs0, i, inner, n1, pre);
    RunBody(w, p, q, body, inner, start, n1, regs0, pre);
    assert BodyRefs(w, body, ctx, g)(i) == RefBody(w.fun, w.vals, body, inner);
    LeaveFixed(w, ctx, start, LoopInner(w, body, names).names, regs0, g, i);
  }

  lemma {:induction false} RunLoop(w: World, p: nat, q: nat, g: nat, body: seq<Cfg>, ctx: Ctx, start: Names, names: Names, regs0: Regs, pre: Point)
    requires w.fun.Printable(Cfg.Loop(g, body)) && w.fun.space.dims[g].kind.Loop?
    requires WellNested(w.fun, w.vals, Cfg.Loop(g, body), ctx.env.Keys, ctx.inThreads)
    requires Site(w, p, q, CfgCode(w.fun, Cfg.Loop(g, body), names).code, ctx, start, names, regs0, pre)
    ensures Triple(w.Program(), p, q, pre, pre, RefTrace(w.fun, w.vals, Cfg.Loop(g, body), ctx))
    ensures Fixed(w, ctx, start, CfgCode(w.fun, Cfg.Loop(g, body), names).names, regs0)
    decreases Cfg.Loop(g, body), 0
  {
    var p0, p1, p', jump := LoopSites(w, p, q, g, body, ctx, start, names, regs0, pre);
    var n := Rounds(w.vals, w.fun.space.dims[g]);
    RunLoopBodies(w, p1, p', g, body, ctx, start, names, regs0);
    LoopTriple(w, LoopPlace(p, p0, p1, p', jump, q, g, body, ctx, start, names, regs0, pre, n));
    LoopFixed(w, g, body, ctx, start, names, regs0);
  }

  lemma {:induction false} RunLoopBodies(w: World, p: nat, q: nat, g: nat, body: seq<Cfg>, ctx: Ctx, start: Names, names: Names, regs0: Regs)
    requires LoopBodySite(w, p, q, g, body, ctx, start, names, regs0)
    ensures forall i: nat :: BodyOk(w, p, q, ctx, g, start.tmps, regs0, BodyRefs(w, body, ctx, g), i)
    ensures Fixed(w, ctx, start, LoopInner(w, body, names).names, regs0)
    decreases body, 2
  {
    forall i: nat ensures BodyOk(w, p, q, ctx, g, start.tmps, regs0, BodyRefs(w, body, ctx, g), i) {
      RunLoopBody(w, p, q, g, body, ctx, start, names, regs0, i);
    }
    RunLoopBody(w, p, q, g, body, ctx, start, names, regs0, 0);
  }

  lemma LoopFixed(w: World, g: nat, body: seq<Cfg>, ctx: Ctx, start: Names, names: Names, regs0: Regs)
    requires w.fun.Printable(Cfg.Loop(g, body)) && w.fun.space.dims[g].kind.Loop?
    requires Fixed(w, ctx, start, LoopInner(w, body, names).names, regs0)
    ensures Fixed(w, ctx, start, CfgCode(w.fun, Cfg.Loop(g, body), names).names, regs0)
  {
  }

  /** Where the parts of a loop lie, and what its body may assume. */
  lemma LoopSites(w: World, p: nat, q: nat, g: nat, body: seq<Cfg>, ctx: Ctx, start: Names, names: Names, regs0: Regs, pre: Point)
    returns (p0: nat, p1: nat, p': nat, jump: nat)
    requires w.fun.Printable(Cfg.Loop(g, body)) && w.fun.space.dims[g].kind.Loop?
    requires WellNested(w.fun, w.vals, Cfg.Loop(g, body), ctx.env.Keys, ctx.inThreads)
    requires Site(w, p, q, CfgCode(w.fun, Cfg.Loop(g, body), names).code, ctx, start, names, regs0, pre)
    ensures LoopBodySite(w, p1, p', g, body, ctx, start, names, regs0)
    ensures WholeLoop(w, LoopPlace(p, p0, p1, p', jump, q, g, body, ctx, start, names, regs0, pre, Rounds(w.vals, w.fun.space.dims[g])))
  {
    CanEnterLoop(w, ctx, g, body);
    p0, p1, p', jump := LoopPositions(w, p, q, g, body, names);
    BodySite(w, p1, p', g, body, ctx, start, names, regs0);
    LoopWhole(w, p, p0, p1, p', jump, q, g, body, ctx, start, names, regs0, pre);
  }

  lemma LoopWhole(w: World, p: nat, p0: nat, p1: nat, p': nat, jump: nat, q: nat, g: nat, body: seq<Cfg>, ctx: Ctx, start: Names, names: Names, regs0: Regs, pre: Point)
    requires w.fun.Valid() && CanEnter(w.fun.space, ctx, g) && w.fun.Printable(Cfg.Loop(g, body)) && w.fun.space.dims[g].kind.Loop?
    requires WellNested(w.fun, w.vals, Cfg.Loop(g, body), ctx.env.Keys, ctx.inThreads)
    requires pre == Inside(ctx, start.tmps, regs0)
    requires p0 == p + |Opening(g, w.fun.LoopLevels(g))| && At(w.code, p, Opening(g, w.fun.LoopLevels(g)))
    requires
      var tmp := LoopInner(w, body, names).names.tmps;
      LoopAt(w, p0, p1, p', jump, q, names.labels, tmp, g, LoopTest(w.fun.LoopLevels(g), g, w.fun.space.dims[g].size, tmp))
    ensures WholeLoop(w, LoopPlace(p, p0, p1, p', jump, q, g, body, ctx, start, names, regs0, pre, Rounds(w.vals, w.fun.space.dims[g])))
  {
  }

  lemma BodySite(w: World, p: nat, q: nat, g: nat, body: seq<Cfg>, ctx: Ctx, start: Names, names: Names, regs0: Regs)
    requires w.Ok() && Fixed(w, ctx, start, names, regs0) && CanEnter(w.fun.space, ctx, g)
    requires w.fun.Printable(Cfg.Loop(g, body)) && w.fun.space.dims[g].kind.Loop?
    requires WellNested(w.fun, w.vals, Cfg.Loop(g, body), ctx.env.Keys, ctx.inThreads)
    requires At(w.code, p, LoopInner(w, body, names).code) && q == p + |LoopInner(w, body, names).code|
    ensures LoopBodySite(w, p, q, g, body, ctx, start, names, regs0)
  {
  }

  /** The parts of a loop: its opening ends at `p0`, its body lies from `p1` to `p'`, its jump at `jump`. */
  datatype LoopPlace = LoopPlace(
    p: nat, p0: nat, p1: nat, p': nat, jump: nat, q: nat, g: nat, body: seq<Cfg>,
    ctx: Ctx, start: Names, names: Names, regs0: Regs, pre: Point, n: nat)

  ghost predicate WholeLoop(w: World, at: LoopPlace) {
    && w.fun.Valid() && CanEnter(w.fun.space, at.ctx, at.g) && w.fun.Printable(Cfg.Loop(at.g, at.body)) && w.fun.space.dims[at.g].kind.Loop?
    && at.pre == Inside(at.ctx, at.start.tmps, at.regs0) && at.n == Rounds(w.vals, w.fun.space.dims[at.g]) >= 1
    && at.p0 == at.p + |Opening(at.g, w.fun.LoopLevels(at.g))| && At(w.code, at.p, Opening(at.g, w.fun.LoopLevels(at.g)))
    && var tmp := LoopInner(w, at.body, at.names).names.tmps;
       LoopAt(w, at.p0, at.p1, at.p', at.jump, at.q, at.names.labels, tmp, at.g, LoopTest(w.fun.LoopLevels(at.g), at.g, w.fun.space.dims[at.g].size, tmp))
  }

  /** All the iterations of a loop, from its label to the instruction after its jump. */
  lemma LoopIterates(w: World, at: LoopPlace)
    requires WholeLoop(w, at)
    requires at.start.tmps <= LoopInner(w, at.body, at.names).names.tmps
    requires forall i: nat :: BodyOk(w, at.p1, at.p', at.ctx, at.g, at.start.tmps, at.regs0, BodyRefs(w, at.body, at.ctx, at.g), i)
    ensures Triple(w.Program(), at.p0, at.q, Between(at.ctx, at.g, at.start.tmps, at.regs0, 0), Between(at.ctx, at.g, at.start.tmps, at.regs0, at.n), Repeated(BodyRefs(w, at.body, at.ctx, at.g), at.n))
  {
    var tmp := LoopInner(w, at.body, at.names).names.tmps;
    var test := LoopTest(w.fun.LoopLevels(at.g), at.g, w.fun.space.dims[at.g].size, tmp);
    var first, last := Between(at.ctx, at.g, at.start.tmps, at.regs0, 0), Between(at.ctx, at.g, at.start.tmps, at.regs0, at.n);
    LoopIsReady(w, at.ctx, at.g);
    var rounds := RoundsPlace(at.p0, at.p1, at.p', at.jump, at.q, at.names.labels, at.ctx, at.g, at.start.tmps, at.regs0, tmp, test);
    DoLoop(w, rounds, BodyRefs(w, at.body, at.ctx, at.g), at.n, first, last);
  }

  /** The opening of a loop, then all its iterations. */
  lemma LoopTriple(w: World, at: LoopPlace)
    requires WholeLoop(w, at)
    requires at.start.tmps <= LoopInner(w, at.body, at.names).names.tmps
    requires forall i: nat :: BodyOk(w, at.p1, at.p', at.ctx, at.g, at.start.tmps, at.regs0, BodyRefs(w, at.body, at.ctx, at.g), i)
    ensures Triple(w.Program(), at.p, at.q, at.pre, at.pre, RefTrace(w.fun, w.vals, Cfg.Loop(at.g, at.body), at.ctx))
  {
    LoopIterates(w, at);
    var refs := BodyRefs(w, at.body, at.ctx, at.g);
    var first, last := Between(at.ctx, at.g, at.start.tmps, at.regs0, 0), Between(at.ctx, at.g, at.start.tmps, at.regs0, at.n);
    LoopIsReady(w, at.ctx, at.g);
    DoOpening(w, at.p, at.p0, at.g, at.ctx, at.start.tmps, at.regs0, w.fun.LoopLevels(at.g), at.pre, first);
    var ref := RefTrace(w.fun, w.vals, Cfg.Loop(at.g, at.body), at.ctx);
    IterationsAreRepeated(w, at.g, at.body, at.ctx, at.n);
    TripleThen(w.Program(), at.p, at.p0, at.q, at.pre, first, last, [], Repeated(refs, at.n), ref);
    LeaveLoop(w, at.p, at.q, at.ctx, at.g, at.pre, at.start.tmps, at.regs0, at.n, ref);
  }

  // ----- Unrolled loops -----

  /** The body of copy `k` lies from `p` to `q`, printed with `names`. */
  ghost predicate CopyBodySite(w: World, p: nat, q: nat, g: nat, body: seq<Cfg>, ctx: Ctx, start: Names, names: Names, regs0: Regs, k: nat) {
    && w.Ok() && CanEnter(w.fun.space, ctx, g) && w.fun.space.dims[g].kind.Unroll?
    && (forall k :: 0 <= k < |body| ==> w.fun.Printable(body[k]))
    && (forall k :: 0 <= k < |body| ==> WellNested(w.fun, w.vals, body[k], ctx.env.Keys + {g}, ctx.inThreads))
    && Fixed(w, EnterLoop(ctx, g, k), start, names, regs0)
    && At(w.code, p, BodyCode(w.fun, body, names).code) && q == p + |BodyCode(w.fun, body, names).code|
  }

  lemma {:induction false} RunCopyBody(w: World, p: nat, q: nat, g: nat, body: seq<Cfg>, ctx: Ctx, start: Names, names: Names, regs0: Regs, k: nat, inner: Ctx, pre: Point)
    requires CopyBodySite(w, p, q, g, body, ctx, start, names, regs0, k)
    requires inner == EnterLoop(ctx, g, k) && pre == Inside(inner, start.tmps, regs0)
    ensures Triple(w.Program(), p, q, pre, pre, RefBody(w.fun, w.vals, body, inner))
    ensures Fixed(w, inner, start, BodyCode(w.fun, body, names).names, regs0)
    decreases body, 1
  {
    assert inner.env.Keys == ctx.env.Keys + {g};
    RunBody(w, p, q, body, inner, start, names, regs0, pre);
  }

  /** The copies of the body of an unrolled loop, printed from `names` on. */
  ghost predicate CopiesSite(w: World, g: nat, body: seq<Cfg>, bases: seq<Operand>, ctx: Ctx, start: Names, names: Names, regs0: Regs) {
    && w.Ok() && CanEnter(w.fun.space, ctx, g) && w.fun.space.dims[g].kind.Unroll? && |bases| == |w.fun.LoopLevels(g)|
    && (forall k :: 0 <= k < |body| ==> w.fun.Printable(body[k]))
    && (forall k :: 0 <= k < |body| ==> WellNested(w.fun, w.vals, body[k], ctx.env.Keys + {g}, ctx.inThreads))
    && Fixed(w, ctx, start, names, regs0) && BasesAt(w, ctx, g, start.tmps, regs0, bases)
  }

  /** The names after some copies: the index of the loop is all that they add. */
  ghost predicate CopiedNames(w: World, ctx: Ctx, start: Names, names: Names, regs0: Regs, g: nat) {
    Fixed(w, ctx, start, names.(current := names.current - {g}), regs0)
  }

  lemma CopyNames(w: World, ctx: Ctx, start: Names, names: Names, regs0: Regs, g: nat, k: nat)
    requires CopiedNames(w, ctx, start, names, regs0, g) && CanEnter(w.fun.space, ctx, g) && w.fun.space.dims[g].kind.Unroll?
    ensures Fixed(w, EnterLoop(ctx, g, k), start, names.(current := names.current[g := k]), regs0)
  {
    var inner := EnterLoop(ctx, g, k);
    assert inner.env.Keys == ctx.env.Keys + {g};
    var rest := names.current - {g};
    assert forall h :: h in rest <==> h in names.current && h != g;
    assert forall h :: h in rest ==> rest[h] == names.current[h];
  }

  lemma CopiesCodeIs(fun: Function, g: nat, body: seq<Cfg>, bases: seq<Operand>, names: Names, n: nat, before: Emitted, advance: seq<Instr>, n1: Names)
    requires g < |fun.space.dims| && |bases| == |fun.LoopLevels(g)| && n > 0
    requires forall k :: 0 <= k < |body| ==> fun.Printable(body[k])
    requires before == CopiesCode(fun, g, body, bases, names, n - 1)
    requires advance == (if n > 1 then UnrolledAdvance(fun.LoopLevels(g), bases, |bases|, n - 1) else [])
    requires n1 == before.names.(current := before.names.current[g := n - 1])
    ensures CopiesCode(fun, g, body, bases, names, n) ==
            Emitted(before.code + advance + BodyCode(fun, body, n1).code, BodyCode(fun, body, n1).names)
  {
  }

  lemma AtThree(code: seq<Instr>, p: nat, a: seq<Instr>, b: seq<Instr>, c: seq<Instr>)
    requires At(code, p, a + b + c)
    ensures At(code, p, a) && At(code, p + |a|, b) && At(code, p + |a| + |b|, c)
  {
    AtConcat(code, p, a + b, c);
    AtConcat(code, p, a, b);
  }

  /** The parts of some copies: those before, what advances the levels, the last one. */
  lemma CopyAt(code: seq<Instr>, p: nat, r: nat, p': nat, q: nat, whole: Emitted, before: Emitted, advance: seq<Instr>, copy: Emitted)
    requires whole == Emitted(before.code + advance + copy.code, copy.names)
    requires At(code, p, whole.code) && q == p + |whole.code| && r == p + |before.code| && p' == r + |advance|
    ensures At(code, p, before.code) && At(code, r, advance) && At(code, p', copy.code) && q == p' + |copy.code|
  {
    AtThree(code, p, before.code, advance, copy.code);
  }

  lemma {:induction false} RunCopies(w: World, p: nat, q: nat, g: nat, body: seq<Cfg>, bases: seq<Operand>, ctx: Ctx, start: Names, names: Names, regs0: Regs, n: nat, pre: Point, post: Point)
    requires CopiesSite(w, g, body, bases, ctx, start, names, regs0)
    requires At(w.code, p, CopiesCode(w.fun, g, body, bases, names, n).code) && q == p + |CopiesCode(w.fun, g, body, bases, names, n).code|
    requires pre == Between(ctx, g, start.tmps, regs0, 0) && post == BeforeCopy(ctx, g, start.tmps, regs0, n)
    ensures Triple(w.Program(), p, q, pre, post, RefIterations(w.fun, w.vals, g, body, ctx, n))
    ensures CopiedNames(w, ctx, start, CopiesCode(w.fun, g, body, bases, names, n).names, regs0, g)
    decreases body, n + 3
  {
    if n == 0 {
      TripleEmpty(w.Program(), p, pre);
      assert names.current - {g} == names.current;
    } else {
      var whole, before := CopiesCode(w.fun, g, body, bases, names, n), CopiesCode(w.fun, g, body, bases, names, n - 1);
      var advance := if n > 1 then UnrolledAdvance(w.fun.LoopLevels(g), bases, |bases|, n - 1) else [];
      var n1 := before.names.(current := before.names.current[g := n - 1]);
      var r, p' := p + |before.code|, p + |before.code| + |advance|;
      CopiesCodeIs(w.fun, g, body, bases, names, n, before, advance, n1);
      CopyAt(w.code, p, r, p', q, whole, before, advance, BodyCode(w.fun, body, n1));
      var mid, inner := BeforeCopy(ctx, g, start.tmps, regs0, n - 1), EnterLoop(ctx, g, n - 1);
      RunCopies(w, p, r, g, body, bases, ctx, start, names, regs0, n - 1, pre, mid);
      RunCopy(w, CopyPlace(r, p', q, g, body, bases, ctx, start, names, before.names, n1, regs0, n - 1, advance, inner, mid, post));
      var ra, rb, ref := RefIterations(w.fun, w.vals, g, body, ctx, n - 1), RefBody(w.fun, w.vals, body, inner), RefIterations(w.fun, w.vals, g, body, ctx, n);
      TripleThen(w.Program(), p, r, q, pre, mid, post, ra, rb, ref);
    }
  }

  /** One copy of an unrolled loop: what advances its levels from `r` to `p'`, then its body. */
  datatype CopyPlace = CopyPlace(
    r: nat, p': nat, q: nat, g: nat, body: seq<Cfg>, bases: seq<Operand>, ctx: Ctx, start: Names, n0: Names, names: Names,
    n1: Names, regs0: Regs, k: nat, advance: seq<Instr>, inner: Ctx, pre: Point, post: Point)

  lemma {:induction false} RunCopy(w: World, at: CopyPlace)
    requires CopiesSite(w, at.g, at.body, at.bases, at.ctx, at.start, at.n0, at.regs0)
    requires CopiedNames(w, at.ctx, at.start, at.names, at.regs0, at.g) && at.n1 == at.names.(current := at.names.current[at.g := at.k]) && at.inner == EnterLoop(at.ctx, at.g, at.k)
    requires at.advance == (if at.k > 0 then UnrolledAdvance(w.fun.LoopLevels(at.g), at.bases, |at.bases|, at.k) else [])
    requires At(w.code, at.r, at.advance) && at.p' == at.r + |at.advance|
    requires At(w.code, at.p', BodyCode(w.fun, at.body, at.n1).code) && at.q == at.p' + |BodyCode(w.fun, at.body, at.n1).code|
    requires at.pre == BeforeCopy(at.ctx, at.g, at.start.tmps, at.regs0, at.k) && at.post == Between(at.ctx, at.g, at.start.tmps, at.regs0, at.k)
    ensures Triple(w.Program(), at.r, at.q, at.pre, at.post, RefBody(w.fun, w.vals, at.body, at.inner))
    ensures CopiedNames(w, at.ctx, at.start, BodyCode(w.fun, at.body, at.n1).names, at.regs0, at.g)
    decreases at.body, 2
  {
    var known, ref := Inside(at.inner, at.start.tmps, at.regs0), RefBody(w.fun, w.vals, at.body, at.inner);
    CopyNames(w, at.ctx, at.start, at.names, at.regs0, at.g, at.k);
    RunCopyBody(w, at.p', at.q, at.g, at.body, at.ctx, at.start, at.n1, at.regs0, at.k, at.inner, known);
    DoCopy(w, at.r, at.p', at.q, at.ctx, at.g, at.start.tmps, at.regs0, at.bases, at.k, at.advance, known, ref, at.pre, at.post);
    LeaveFixed(w, at.ctx, at.start, BodyCode(w.fun, at.body, at.n1).names, at.regs0, at.g, at.k);
  }

  /** The parts of an unrolled loop: its initialisation ends at `r`, where its copies start with the names `n1`. */
  datatype CopiesPlace = CopiesPlace(
    p: nat, r: nat, q: nat, g: nat, body: seq<Cfg>, levels: seq<Level>, bases: seq<Operand>,
    ctx: Ctx, start: Names, names: Names, n1: Names, regs0: Regs, n: nat, pre: Point, mid: Point)

  /** An unrolled loop: its initialisation from `p` to `r`, then its copies up to `q`. */
  ghost predicate UnrolledWhole(w: World, at: CopiesPlace) {
    && w.Ok() && CanEnter(w.fun.space, at.ctx, at.g) && w.fun.space.dims[at.g].kind.Unroll? && Fixed(w, at.ctx, at.start, at.names, at.regs0)
    && (forall k :: 0 <= k < |at.body| ==> w.fun.Printable(at.body[k]))
    && (forall k :: 0 <= k < |at.body| ==> WellNested(w.fun, w.vals, at.body[k], at.ctx.env.Keys + {at.g}, at.ctx.inThreads))
    && at.levels == w.fun.LoopLevels(at.g) && (forall k :: 0 <= k < |at.levels| ==> at.levels[k].base.NumComponents() > 0)
    && at.bases == UnrolledBases(at.levels, |at.levels|, at.names.tmps) && at.n1 == at.names.(tmps := UnrolledTmps(at.levels, |at.levels|, at.names.tmps))
    && At(w.code, at.p, UnrolledInit(at.levels, |at.levels|, at.names.tmps)) && at.r == at.p + |UnrolledInit(at.levels, |at.levels|, at.names.tmps)|
    && At(w.code, at.r, CopiesCode(w.fun, at.g, at.body, at.bases, at.n1, at.n).code) && at.q == at.r + |CopiesCode(w.fun, at.g, at.body, at.bases, at.n1, at.n).code|
    && at.pre == Inside(at.ctx, at.start.tmps, at.regs0) && at.mid == Started(at.ctx, at.g, at.start.tmps, at.regs0, at.bases, at.n1.tmps)
  }

  lemma UnrolledOpening(w: World, at: CopiesPlace)
    requires UnrolledWhole(w, at)
    ensures Triple(w.Program(), at.p, at.r, at.pre, at.mid, [])
  {
    DoStart(w, at.p, at.r, at.ctx, at.g, at.start.tmps, at.regs0, at.levels, at.names.tmps, at.pre, at.mid);
  }

  lemma RigidSite(w: World, at: CopiesPlace, regs1: Regs)
    requires UnrolledWhole(w, at) && w.Sat(at.mid, regs1)
    ensures CopiesSite(w, at.g, at.body, at.bases, at.ctx, at.n1, at.n1, regs1)
  {
    RegInvHolds(w.fun.space, w.vals, at.ctx, regs1);
  }

  /** The copies of an unrolled loop, from the registers its initialisation leaves. */
  lemma {:induction false} RunRigidCopies(w: World, at: CopiesPlace, regs1: Regs, ref: seq<RefEvent>)
    requires UnrolledWhole(w, at) && w.Sat(at.mid, regs1)
    requires ref == RefIterations(w.fun, w.vals, at.g, at.body, at.ctx, at.n)
    ensures Triple(w.Program(), at.r, at.q, Exactly(regs1), at.pre, ref)
    decreases at.body, at.n + 4
  {
    var first, last := Between(at.ctx, at.g, at.n1.tmps, regs1, 0), BeforeCopy(at.ctx, at.g, at.n1.tmps, regs1, at.n);
    RigidSite(w, at, regs1);
    RunCopies(w, at.r, at.q, at.g, at.body, at.bases, at.ctx, at.n1, at.n1, regs1, at.n, first, last);
    DoCopied(w, at.r, at.q, at.ctx, at.g, at.start.tmps, at.regs0, at.bases, at.n1.tmps, regs1, if at.n == 0 then 0 else at.n - 1, first, last, at.pre, ref);
  }

  lemma {:induction false} RunAllCopies(w: World, at: CopiesPlace, ref: seq<RefEvent>)
    requires UnrolledWhole(w, at)
    requires ref == RefIterations(w.fun, w.vals, at.g, at.body, at.ctx, at.n)
    ensures forall regs1 :: w.Sat(at.mid, regs1) ==> Triple(w.Program(), at.r, at.q, Exactly(regs1), at.pre, ref)
    decreases at.body, at.n + 5
  {
    forall regs1 | w.Sat(at.mid, regs1) ensures Triple(w.Program(), at.r, at.q, Exactly(regs1), at.pre, ref) {
      RunRigidCopies(w, at, regs1, ref);
    }
  }

  /** An opening, then code that runs from each of the registers it may leave. */
  lemma Join(w: World, p: nat, r: nat, q: nat, pre: Point, mid: Point, ref: seq<RefEvent>)
    requires Triple(w.Program(), p, r, pre, mid, [])
    requires forall regs1 :: w.Sat(mid, regs1) ==> Triple(w.Program(), r, q, Exactly(regs1), pre, ref)
    ensures Triple(w.Program(), p, q, pre, pre, ref)
  {
    DoRigid(w, r, q, mid, pre, ref);
    TripleThen(w.Program(), p, r, q, pre, mid, pre, [], ref, ref);
  }

  lemma UnrolledCodeIs(fun: Function, g: nat, body: seq<Cfg>, names: Names, levels: seq<Level>, bases: seq<Operand>, n1: Names)
    requires fun.Printable(Cfg.Loop(g, body)) && fun.space.dims[g].kind.Unroll? && levels == fun.LoopLevels(g)
    requires bases == UnrolledBases(levels, |levels|, names.tmps) && n1 == names.(tmps := UnrolledTmps(levels, |levels|, names.tmps))
    ensures CfgCode(fun, Cfg.Loop(g, body), names).code ==
            UnrolledInit(levels, |levels|, names.tmps) + CopiesCode(fun, g, body, bases, n1, fun.space.dims[g].size.n).code
  {
  }

  lemma UnrolledPositions(w: World, p: nat, q: nat, g: nat, body: seq<Cfg>, names: Names, levels: seq<Level>, bases: seq<Operand>, n1: Names)
    returns (r: nat)
    requires w.fun.Printable(Cfg.Loop(g, body)) && w.fun.space.dims[g].kind.Unroll? && levels == w.fun.LoopLevels(g)
    requires At(w.code, p, CfgCode(w.fun, Cfg.Loop(g, body), names).code) && q == p + |CfgCode(w.fun, Cfg.Loop(g, body), names).code|
    requires bases == UnrolledBases(levels, |levels|, names.tmps) && n1 == names.(tmps := UnrolledTmps(levels, |levels|, names.tmps))
    ensures At(w.code, p, UnrolledInit(levels, |levels|, names.tmps)) && r == p + |UnrolledInit(levels, |levels|, names.tmps)|
    ensures
      var copies := CopiesCode(w.fun, g, body, bases, n1, w.fun.space.dims[g].size.n);
      At(w.code, r, copies.code) && q == r + |copies.code|
  {
    var init := UnrolledInit(levels, |levels|, names.tmps);
    UnrolledCodeIs(w.fun, g, body, names, levels, bases, n1);
    AtConcat(w.code, p, init, CopiesCode(w.fun, g, body, bases, n1, w.fun.space.dims[g].size.n).code);
    r := p + |init|;
  }

  lemma UnrolledSite(w: World, p: nat, q: nat, g: nat, body: seq<Cfg>, ctx: Ctx, start: Names, names: Names, regs0: Regs, pre: Point, levels: seq<Level>, bases: seq<Operand>, n1: Names, mid: Point)
    returns (r: nat)
    requires w.fun.Printable(Cfg.Loop(g, body)) && w.fun.space.dims[g].kind.Unroll?
    requires WellNested(w.fun, w.vals, Cfg.Loop(g, body), ctx.env.Keys, ctx.inThreads)
    requires Site(w, p, q, CfgCode(w.fun, Cfg.Loop(g, body), names).code, ctx, start, names, regs0, pre)
    requires levels == w.fun.LoopLevels(g)
    requires bases == UnrolledBases(levels, |levels|, names.tmps) && n1 == names.(tmps := UnrolledTmps(levels, |levels|, names.tmps))
    requires mid == Started(ctx, g, start.tmps, regs0, bases, n1.tmps)
    ensures UnrolledWhole(w, CopiesPlace(p, r, q, g, body, levels, bases, ctx, start, names, n1, regs0, w.fun.space.dims[g].size.n, pre, mid))
  {
    CanEnterLoop(w, ctx, g, body);
    r := UnrolledPositions(w, p, q, g, body, names, levels, bases, n1);
  }

  lemma {:induction false} RunUnrolledLoop(w: World, p: nat, q: nat, g: nat, body: seq<Cfg>, ctx: Ctx, start: Names, names: Names, regs0: Regs, pre: Point)
    requires w.fun.Printable(Cfg.Loop(g, body)) && w.fun.space.dims[g].kind.Unroll?
    requires WellNested(w.fun, w.vals, Cfg.Loop(g, body), ctx.env.Keys, ctx.inThreads)
    requires Site(w, p, q, CfgCode(w.fun, Cfg.Loop(g, body), names).code, ctx, start, names, regs0, pre)
    ensures Triple(w.Program(), p, q, pre, pre, RefTrace(w.fun, w.vals, Cfg.Loop(g, body), ctx))
    ensures Fixed(w, ctx, start, CfgCode(w.fun, Cfg.Loop(g, body), names).names, regs0)
    decreases Cfg.Loop(g, body), 0
  {
    var levels, n := w.fun.LoopLevels(g), w.fun.space.dims[g].size.n;
    var bases, n1 := UnrolledBases(levels, |levels|, names.tmps), names.(tmps := UnrolledTmps(levels, |levels|, names.tmps));
    var mid, ref := Started(ctx, g, start.tmps, regs0, bases, n1.tmps), RefTrace(w.fun, w.vals, Cfg.Loop(g, body), ctx);
    var r := UnrolledSite(w, p, q, g, body, ctx, start, names, regs0, pre, levels, bases, n1, mid);
    var at := CopiesPlace(p, r, q, g, body, levels, bases, ctx, start, names, n1, regs0, n, pre, mid);
    UnrolledOpening(w, at);
    RunAllCopies(w, at, ref);
    Join(w, p, r, q, pre, mid, ref);
    FixedAfter(w, ctx, start, names, Cfg.Loop(g, body), regs0);
  }

  // ----- Blocks of threads -----

  /** The parts of a block of threads: its opening ends at `r` and its body at `s`. */
  datatype ThreadsPlace = ThreadsPlace(
    p: nat, r: nat, s: nat, active: seq<Option<nat>>, body: seq<Cfg>, levels: seq<Level>,
    ctx: Ctx, inner: Ctx, start: Names, names: Names, guard: Names, regs0: Regs, pre: Point, mid: Point)

  /** A block of threads: its opening from `p` to `r`, its body up to `s` and a barrier. */
  ghost predicate ThreadsWhole(w: World, at: ThreadsPlace) {
    && w.Ok() && Fixed(w, at.ctx, at.start, at.names, at.regs0) && !at.ctx.inThreads && ActiveOk(w.fun, at.active)
    && at.inner == EnterThreads(w.fun, at.active, at.ctx) && at.guard == GuardCode(w.fun, at.active, |at.active|, at.names).names
    && (forall k :: 0 <= k < |at.body| ==> w.fun.Printable(at.body[k]))
    && (forall k :: 0 <= k < |at.body| ==> WellNested(w.fun, w.vals, at.body[k], at.ctx.env.Keys, true))
    && at.levels == w.fun.ThreadLevels(at.active) && (forall k :: 0 <= k < |at.levels| ==> ParallelPrintable(at.levels[k]))
    && At(w.code, at.p, ThreadsOpening(w.fun, at.active, at.names, at.levels)) && at.r == at.p + |ThreadsOpening(w.fun, at.active, at.names, at.levels)|
    && At(w.code, at.r, BodyCode(w.fun, at.body, at.guard).code) && at.s == at.r + |BodyCode(w.fun, at.body, at.guard).code|
    && at.pre == Inside(at.ctx, at.start.tmps, at.regs0) && at.mid == Opened(at.inner, at.guard, at.start.tmps, at.regs0)
  }

  lemma {:induction false} RunRigidThreads(w: World, at: ThreadsPlace, regs1: Regs, ref: seq<RefEvent>)
    requires ThreadsWhole(w, at) && w.Sat(at.mid, regs1)
    requires ref == RefBody(w.fun, w.vals, at.body, at.inner)
    ensures Triple(w.Program(), at.r, at.s, Exactly(regs1), at.pre, ref)
    decreases at.body, 1
  {
    var point := Inside(at.inner, at.guard.tmps, regs1);
    RunBody(w, at.r, at.s, at.body, at.inner, at.guard, at.guard, regs1, point);
    DoLeaveThreads(w, at.r, at.s, at.active, at.guard, at.ctx, at.start.tmps, at.regs0, regs1, point, at.pre, ref);
  }

  lemma {:induction false} RunAllThreads(w: World, at: ThreadsPlace, ref: seq<RefEvent>)
    requires ThreadsWhole(w, at)
    requires ref == RefBody(w.fun, w.vals, at.body, at.inner)
    ensures forall regs1 :: w.Sat(at.mid, regs1) ==> Triple(w.Program(), at.r, at.s, Exactly(regs1), at.pre, ref)
    decreases at.body, 2
  {
    forall regs1 | w.Sat(at.mid, regs1) ensures Triple(w.Program(), at.r, at.s, Exactly(regs1), at.pre, ref) {
      RunRigidThreads(w, at, regs1, ref);
    }
  }

  lemma ThreadsOpened(w: World, at: ThreadsPlace)
    requires ThreadsWhole(w, at)
    ensures Triple(w.Program(), at.p, at.r, at.pre, at.mid, [])
  {
    DoOpenThreads(w, at.p, at.r, at.active, at.names, at.levels, at.ctx, at.start.tmps, at.regs0, at.pre, at.mid);
  }

  lemma ThreadsCodeIs(fun: Function, active: seq<Option<nat>>, body: seq<Cfg>, names: Names)
    requires fun.Printable(Threads(active, body))
    ensures CfgCode(fun, Threads(active, body), names).code ==
            ThreadsOpening(fun, active, names, fun.ThreadLevels(active)) +
            BodyCode(fun, body, GuardCode(fun, active, |active|, names).names).code + [Sync]
  {
  }

  lemma ThreadsPositions(w: World, p: nat, q: nat, active: seq<Option<nat>>, body: seq<Cfg>, names: Names, guard: Names, levels: seq<Level>)
    returns (r: nat, s: nat)
    requires w.fun.Printable(Threads(active, body)) && levels == w.fun.ThreadLevels(active)
    requires At(w.code, p, CfgCode(w.fun, Threads(active, body), names).code) && q == p + |CfgCode(w.fun, Threads(active, body), names).code|
    requires guard == GuardCode(w.fun, active, |active|, names).names
    ensures At(w.code, p, ThreadsOpening(w.fun, active, names, levels)) && r == p + |ThreadsOpening(w.fun, active, names, levels)|
    ensures At(w.code, r, BodyCode(w.fun, body, guard).code) && s == r + |BodyCode(w.fun, body, guard).code|
    ensures s < |w.code| && w.code[s] == Sync && q == s + 1
  {
    var opening, code := ThreadsOpening(w.fun, active, names, levels), BodyCode(w.fun, body, guard).code;
    ThreadsCodeIs(w.fun, active, body, names);
    AtThree(w.code, p, opening, code, [Sync]);
    r, s := p + |opening|, p + |opening| + |code|;
    assert w.code[s] == [Sync][0];
  }

  lemma ThreadsSite(w: World, p: nat, q: nat, active: seq<Option<nat>>, body: seq<Cfg>, ctx: Ctx, start: Names, names: Names, regs0: Regs, pre: Point, inner: Ctx, guard: Names, mid: Point)
    returns (r: nat, s: nat)
    requires w.fun.Printable(Threads(active, body)) && WellNested(w.fun, w.vals, Threads(active, body), ctx.env.Keys, ctx.inThreads)
    requires Site(w, p, q, CfgCode(w.fun, Threads(active, body), names).code, ctx, start, names, regs0, pre)
    requires inner == EnterThreads(w.fun, active, ctx) && guard == GuardCode(w.fun, active, |active|, names).names
    requires mid == Opened(inner, guard, start.tmps, regs0)
    ensures ThreadsWhole(w, ThreadsPlace(p, r, s, active, body, w.fun.ThreadLevels(active), ctx, inner, start, names, guard, regs0, pre, mid))
    ensures s < |w.code| && w.code[s] == Sync && q == s + 1
  {
    r, s := ThreadsPositions(w, p, q, active, body, names, guard, w.fun.ThreadLevels(active));
  }

  lemma {:induction false} RunThreads(w: World, p: nat, q: nat, active: seq<Option<nat>>, body: seq<Cfg>, ctx: Ctx, start: Names, names: Names, regs0: Regs, pre: Point)
    requires w.fun.Printable(Threads(active, body)) && WellNested(w.fun, w.vals, Threads(active, body), ctx.env.Keys, ctx.inThreads)
    requires Site(w, p, q, CfgCode(w.fun, Threads(active, body), names).code, ctx, start, names, regs0, pre)
    ensures Triple(w.Program(), p, q, pre, pre, RefTrace(w.fun, w.vals, Threads(active, body), ctx))
    ensures Fixed(w, ctx, start, CfgCode(w.fun, Threads(active, body), names).names, regs0)
    decreases Threads(active, body), 0
  {
    var levels, guard, inner := w.fun.ThreadLevels(active), GuardCode(w.fun, active, |active|, names).names, EnterThreads(w.fun, active, ctx);
    var mid, ref := Opened(inner, guard, start.tmps, regs0), RefBody(w.fun, w.vals, body, inner);
    var r, s := ThreadsSite(w, p, q, active, body, ctx, start, names, regs0, pre, inner, guard, mid);
    var at := ThreadsPlace(p, r, s, active, body, levels, ctx, inner, start, names, guard, regs0, pre, mid);
    ThreadsOpened(w, at);
    RunAllThreads(w, at, ref);
    Join(w, p, r, s, pre, mid, ref);
    DoSync(w, p, s, q, pre, ref, RefTrace(w.fun, w.vals, Threads(active, body), ctx));
    FixedAfter(w, ctx, start, names, Threads(active, body), regs0);
  }

  lemma DoSync(w: World, p: nat, s: nat, q: nat, pre: Point, ref: seq<RefEvent>, ref': seq<RefEvent>)
    requires Triple(w.Program(), p, s, pre, pre, ref)
    requires s < |w.code| && w.code[s] == Sync && q == s + 1 && ref' == ref + [RefBarrier]
    ensures Triple(w.Program(), p, q, pre, pre, ref')
  {
    assert EventMatches(w.fun, w.vals, Barrier, RefBarrier);
    TripleEvent(w.Program(), s, q, Sync, pre, RefBarrier);
    TripleThen(w.Program(), p, s, q, pre, pre, pre, ref, [RefBarrier], ref');
  }
}
