/** Whole runs of the printed code. */
module LoopRun {
  import opened Wrappers
  import opened InductionVars
  import opened InductionLevels
  import opened LoopCode
  import opened StraightCode
  import opened Triples
  import opened LoopMeaning
  import opened LoopCorrect

  /** Conditions on the registers, relative to the registers `regs0` of some earlier point. */
  datatype Point =
    | Inside(ctx: Ctx, tmps: nat, regs0: Regs)                            // inside a context
    | Between(ctx: Ctx, g: nat, tmps: nat, regs0: Regs, i: nat)          // between two iterations of a loop
    | Tested(ctx: Ctx, g: nat, tmps: nat, regs0: Regs, i: nat, tmp: nat) // after the test of iteration `i`
    | Started(ctx: Ctx, g: nat, tmps: nat, regs0: Regs, bases: seq<Operand>, tmps': nat)  // an unrolled loop
    | Opened(ctx: Ctx, guard: Names, tmps: nat, regs0: Regs)             // a block of threads
    | Exactly(regs0: Regs)

  datatype World = World(fun: Function, vals: Vals, code: seq<Instr>) {
    ghost function Program(): Program<Point, RefEvent> {
      Triples.Program(code, (c, regs) => Sat(c, regs), (e, r) => EventMatches(fun, vals, e, r))
    }

    ghost predicate Ok() {
      fun.Valid() && UniqueLabels(code)
    }

    ghost predicate Sat(c: Point, regs: Regs) {
      match c
      case Inside(ctx, tmps, regs0) => RegInv(fun.space, vals, ctx, regs) && TmpsKept(tmps, regs0, regs)
      case Between(ctx, g, tmps, regs0, i) => Midway(ctx, g, tmps, regs0, i, regs)
      case Tested(ctx, g, tmps, regs0, i, tmp) =>
        Midway(ctx, g, tmps, regs0, i + 1, regs) && (Get(regs, Tmp(tmp)) != 0 <==> i + 1 < SizeOf(vals, fun.space.dims[g].size))
      case Started(ctx, g, tmps, regs0, bases, tmps') =>
        && g < |fun.space.dims| && UnrolledAt(fun, vals, ctx, g, bases, tmps', regs, 0) && TmpsKept(tmps, regs0, regs)
      case Opened(ctx, guard, tmps, regs0) =>
        RegInv(fun.space, vals, ctx, regs) && GuardHolds(guard, ctx, regs) && TmpsKept(tmps, regs0, regs)
      case Exactly(regs0) => regs == regs0
    }

    ghost predicate Midway(ctx: Ctx, g: nat, tmps: nat, regs0: Regs, i: nat, regs: Regs) {
      g < |fun.space.dims| && AtIteration(fun, vals, ctx, g, regs, i) && TmpsKept(tmps, regs0, regs)
    }
  }

  /** What stays fixed while a piece of the graph runs: the names it started from and their registers. */
  ghost predicate Fixed(w: World, ctx: Ctx, start: Names, names: Names, regs0: Regs) {
    && CtxOk(w.fun.space, ctx) && (!ctx.inThreads ==> ctx.active == {})
    && CurrentOk(w.fun.space, names.current, ctx.env) && start.tmps <= names.tmps
    && (ctx.inThreads ==> names.guard == start.guard && GuardHolds(start, ctx, regs0))
  }

  // ----- Instructions -----

  /** An instruction of a block of threads sees the registers its indexes determine. */
  lemma DoInst(w: World, p: nat, q: nat, ctx: Ctx, start: Names, names: Names, regs0: Regs, id: nat, c: Point)
    requires q == p + 1 <= |w.code| && w.code[p] == Exec(id, names.current, names.guard) && ctx.inThreads
    requires Fixed(w, ctx, start, names, regs0) && c == Inside(ctx, start.tmps, regs0)
    ensures Triple(w.Program(), p, q, c, c, [Did(id, ctx)])
  {
    var i := Exec(id, names.current, names.guard);
    forall regs | w.Program().sat(c, regs)
      ensures w.Program().matches(Ran(id, names.current, i.guard.None? || Get(regs, i.guard.value) != 0, regs), Did(id, ctx))
    {
      assert w.Sat(c, regs);
      assert EventMatches(w.fun, w.vals, Ran(id, names.current, i.guard.None? || Get(regs, i.guard.value) != 0, regs), Did(id, ctx));
    }
    TripleEvent(w.Program(), p, q, i, c, Did(id, ctx));
  }

  // ----- Iterations -----

  /** The body of a loop finds its registers and leaves them at the same iteration. */
  lemma DoIteration(w: World, p: nat, q: nat, ctx: Ctx, g: nat, tmps: nat, regs0: Regs, i: nat, known: Point, inv: Point, ref: seq<RefEvent>)
    requires w.fun.Valid() && CanEnter(w.fun.space, ctx, g)
    requires known == Inside(EnterLoop(ctx, g, i), tmps, regs0) && inv == Between(ctx, g, tmps, regs0, i)
    requires Triple(w.Program(), p, q, known, known, ref)
    ensures Triple(w.Program(), p, q, inv, inv, ref)
  {
    forall r | w.Program().sat(inv, r) ensures w.Program().sat(known, r) {
      assert w.Sat(inv, r);
      EnterIteration(w.fun, w.vals, ctx, g, r, i);
      assert w.Sat(known, r);
    }
    forall r | w.Program().sat(known, r) ensures w.Program().sat(inv, r) {
      assert w.Sat(known, r);
      LeaveIteration(w.fun, w.vals, ctx, g, r, i);
      assert w.Sat(inv, r);
    }
    TripleConsequence(w.Program(), p, q, known, known, inv, inv, ref);
  }

  /** After a loop, the registers of its context are known again. */
  lemma LeaveLoop(w: World, p: nat, q: nat, ctx: Ctx, g: nat, pre: Point, tmps: nat, regs0: Regs, i: nat, ref: seq<RefEvent>)
    requires Triple(w.Program(), p, q, pre, Between(ctx, g, tmps, regs0, i), ref)
    ensures Triple(w.Program(), p, q, pre, Inside(ctx, tmps, regs0), ref)
  {
    var inv, post := Between(ctx, g, tmps, regs0, i), Inside(ctx, tmps, regs0);
    forall r | w.Program().sat(inv, r) ensures w.Program().sat(post, r) {
      assert w.Sat(inv, r);
      RegInvHolds(w.fun.space, w.vals, ctx, r);
      assert w.Sat(post, r);
    }
    TripleConsequence(w.Program(), p, q, pre, inv, pre, post, ref);
  }

  // ----- Sequential loops -----

  /** What a loop runs before its label. */
  function Opening(g: nat, levels: seq<Level>): (r: seq<Instr>)
    requires forall k :: 0 <= k < |levels| ==> levels[k].base.NumComponents() > 0
    ensures |r| == 1 + |levels|
  {
    [Mov(Index(g), Lit(0))] + InitCode(levels, |levels|)
  }

  function OpeningRegs(g: nat, levels: seq<Level>, regs: Regs): Regs
    requires forall k :: 0 <= k < |levels| ==> levels[k].base.NumComponents() > 0
  {
    InitRegs(regs[Index(g) := 0], levels, |levels|)
  }

  lemma RunOpening(code: seq<Instr>, p: nat, g: nat, levels: seq<Level>, regs: Regs, trace: seq<Event>)
    requires forall k :: 0 <= k < |levels| ==> levels[k].base.NumComponents() > 0
    requires At(code, p, Opening(g, levels))
    ensures Runs(code, p, Opening(g, levels), regs, OpeningRegs(g, levels, regs), trace)
  {
    var mov := Mov(Index(g), Lit(0));
    var init := InitCode(levels, |levels|);
    AtConcat(code, p, [mov], init);
    RunsEmpty(code, p, regs, trace);
    assert [] + [mov] == [mov];
    RunsThen(code, p, [], mov, regs, regs, trace);
    RunInit(code, p + 1, Apply(regs, mov), levels, |levels|, trace);
    RunsConcat(code, p, [mov], init, regs, Apply(regs, mov), InitRegs(Apply(regs, mov), levels, |levels|), trace);
  }

  lemma OpeningOk(known: Known, g: nat, levels: seq<Level>, regs: Regs, tmps: nat)
    requires Holds(known, regs) && LevelsOk(known, levels) && !known.det(Index(g))
    ensures IterationAt(known, levels, g, true, OpeningRegs(g, levels, regs), 0) && TmpsKept(tmps, regs, OpeningRegs(g, levels, regs))
  {
    WriteKeeps(known, regs, Index(g), 0);
    var regs1 := regs[Index(g) := 0];
    InitRegsOk(known, regs1, levels, |levels|);
    NotALevel(known, levels, Index(g));
    OnlyLevelsKeepsTmps(known, regs1, InitRegs(regs1, levels, |levels|), levels, tmps);
  }

  lemma OpenedAt(w: World, g: nat, ctx: Ctx, tmps: nat, regs0: Regs, regs: Regs)
    requires w.fun.Valid() && CanEnter(w.fun.space, ctx, g) && w.fun.space.dims[g].kind.Loop? && w.Sat(Inside(ctx, tmps, regs0), regs)
    requires forall k :: 0 <= k < |w.fun.LoopLevels(g)| ==> w.fun.LoopLevels(g)[k].base.NumComponents() > 0
    ensures w.Sat(Between(ctx, g, tmps, regs0, 0), OpeningRegs(g, w.fun.LoopLevels(g), regs))
  {
    var known := Know(w.fun.space, w.vals, ctx);
    LevelsReady(w.fun, w.vals, ctx, g);
    assert !known.det(Index(g));
    RegInvHolds(w.fun.space, w.vals, ctx, regs);
    OpeningOk(known, g, w.fun.LoopLevels(g), regs, tmps);
  }

  /** Before its first iteration, a loop sets its index to 0 and its levels to their base. */
  lemma DoOpening(w: World, p: nat, q: nat, g: nat, ctx: Ctx, tmps: nat, regs0: Regs, levels: seq<Level>, pre: Point, post: Point)
    requires w.fun.Valid() && CanEnter(w.fun.space, ctx, g) && w.fun.space.dims[g].kind.Loop? && levels == w.fun.LoopLevels(g)
    requires forall k :: 0 <= k < |levels| ==> levels[k].base.NumComponents() > 0
    requires At(w.code, p, Opening(g, levels)) && q == p + |Opening(g, levels)|
    requires pre == Inside(ctx, tmps, regs0) && post == Between(ctx, g, tmps, regs0, 0)
    ensures Triple(w.Program(), p, q, pre, post, [])
  {
    var f := (regs: Regs) => OpeningRegs(g, levels, regs);
    forall regs, trace ensures Runs(w.code, p, Opening(g, levels), regs, f(regs), trace) {
      RunOpening(w.code, p, g, levels, regs, trace);
    }
    forall regs | w.Program().sat(pre, regs) ensures w.Program().sat(post, f(regs)) {
      assert w.Sat(pre, regs);
      OpenedAt(w, g, ctx, tmps, regs0, regs);
      assert w.Sat(post, f(regs));
    }
    TripleStraight(w.Program(), p, q, Opening(g, levels), f, pre, post);
  }

  /** Where the loop goes after iteration `i`: back to its label, or past its end. */
  function NextAt(w: World, p: nat, q: nat, g: nat, i: nat): nat
    requires g < |w.fun.space.dims|
  {
    if i + 1 < SizeOf(w.vals, w.fun.space.dims[g].size) then p else q
  }

  /** The levels of a sequential loop can be computed where it starts, and its index is free. */
  ghost predicate LoopReady(w: World, ctx: Ctx, g: nat) {
    && g < |w.fun.space.dims| && w.fun.space.dims[g].kind.Loop?
    && LevelsOk(Know(w.fun.space, w.vals, ctx), w.fun.LoopLevels(g)) && !Know(w.fun.space, w.vals, ctx).det(Index(g))
  }

  lemma TestedAt(w: World, ctx: Ctx, g: nat, tmps: nat, regs0: Regs, tmp: nat, i: nat, regs: Regs)
    requires LoopReady(w, ctx, g) && tmps <= tmp && w.Sat(Between(ctx, g, tmps, regs0, i), regs)
    ensures w.Sat(Tested(ctx, g, tmps, regs0, i, tmp), LoopEndRegs(regs, w.fun.LoopLevels(g), g, w.fun.space.dims[g].size, tmp))
  {
    LoopEndOk(Know(w.fun.space, w.vals, ctx), w.fun.LoopLevels(g), g, w.fun.space.dims[g].size, tmp, regs, i);
  }

  lemma DoTest(w: World, p: nat, q: nat, ctx: Ctx, g: nat, tmps: nat, regs0: Regs, tmp: nat, i: nat, frag: seq<Instr>, pre: Point, post: Point)
    requires LoopReady(w, ctx, g) && tmps <= tmp
    requires frag == LoopTest(w.fun.LoopLevels(g), g, w.fun.space.dims[g].size, tmp) && At(w.code, p, frag) && q == p + |frag|
    requires pre == Between(ctx, g, tmps, regs0, i) && post == Tested(ctx, g, tmps, regs0, i, tmp)
    ensures Triple(w.Program(), p, q, pre, post, [])
  {
    var levels, size := w.fun.LoopLevels(g), w.fun.space.dims[g].size;
    var f := (regs: Regs) => LoopEndRegs(regs, levels, g, size, tmp);
    forall regs, trace ensures Runs(w.code, p, frag, regs, f(regs), trace) {
      RunLoopTest(w.code, p, levels, g, size, tmp, regs, trace);
    }
    forall regs | w.Program().sat(pre, regs) ensures w.Program().sat(post, f(regs)) {
      assert w.Sat(pre, regs);
      TestedAt(w, ctx, g, tmps, regs0, tmp, i, regs);
      assert w.Sat(post, f(regs));
    }
    TripleStraight(w.Program(), p, q, frag, f, pre, post);
  }

  /** The jump goes back while indexes remain. */
  lemma DoJump(w: World, p: nat, p': nat, next: nat, l: nat, ctx: Ctx, g: nat, tmps: nat, regs0: Regs, tmp: nat, i: nat, pre: Point, post: Point)
    requires g < |w.fun.space.dims| && p' < |w.code| && w.code[p'] == JumpIf(l, Tmp(tmp)) && Find(w.code, l) == p
    requires pre == Tested(ctx, g, tmps, regs0, i, tmp) && post == Between(ctx, g, tmps, regs0, i + 1) && next == NextAt(w, p, p' + 1, g, i)
    ensures Triple(w.Program(), p', next, pre, post, [])
  {
    var taken := i + 1 < SizeOf(w.vals, w.fun.space.dims[g].size);
    forall regs | w.Program().sat(pre, regs) ensures Get(regs, Tmp(tmp)) != 0 <==> taken {
      assert w.Sat(pre, regs);
    }
    TripleJump(w.Program(), p', next, l, Tmp(tmp), p, taken, pre);
    forall regs | w.Program().sat(pre, regs) ensures w.Program().sat(post, regs) {
      assert w.Sat(pre, regs);
      assert w.Sat(post, regs);
    }
    TripleConsequence(w.Program(), p', next, pre, pre, pre, post, []);
  }

  /** A label at `p`, a body from `p1` to `p'`, the test of the loop up to `jump` and its jump, up to `q`. */
  ghost predicate LoopAt(w: World, p: nat, p1: nat, p': nat, jump: nat, q: nat, l: nat, tmp: nat, g: nat, test: seq<Instr>) {
    && g < |w.fun.space.dims| && w.fun.space.dims[g].kind.Loop?
    && p1 == p + 1 <= p' && jump == p' + |test| && q == jump + 1 <= |w.code|
    && Find(w.code, l) == p && w.code[p] == Label(l)
    && test == LoopTest(w.fun.LoopLevels(g), g, w.fun.space.dims[g].size, tmp) && At(w.code, p', test)
    && w.code[jump] == JumpIf(l, Tmp(tmp))
  }

  /** The parts of a loop and what its iterations start from: the test of its index ends in temporary `tmp`. */
  datatype RoundsPlace = RoundsPlace(
    p: nat, p1: nat, p': nat, jump: nat, q: nat, l: nat, ctx: Ctx, g: nat, tmps: nat, regs0: Regs, tmp: nat, test: seq<Instr>)

  lemma DoRound(w: World, at: RoundsPlace, next: nat, i: nat, known: Point, a: Point, b: Point, ref: seq<RefEvent>)
    requires w.fun.Valid() && LoopAt(w, at.p, at.p1, at.p', at.jump, at.q, at.l, at.tmp, at.g, at.test) && CanEnter(w.fun.space, at.ctx, at.g) && at.tmps <= at.tmp
    requires LoopReady(w, at.ctx, at.g)
    requires known == Inside(EnterLoop(at.ctx, at.g, i), at.tmps, at.regs0) && Triple(w.Program(), at.p1, at.p', known, known, ref)
    requires a == Between(at.ctx, at.g, at.tmps, at.regs0, i) && b == Between(at.ctx, at.g, at.tmps, at.regs0, i + 1) && next == NextAt(w, at.p, at.q, at.g, i)
    ensures Triple(w.Program(), at.p, next, a, b, ref)
  {
    var t := Tested(at.ctx, at.g, at.tmps, at.regs0, i, at.tmp);
    DoIteration(w, at.p1, at.p', at.ctx, at.g, at.tmps, at.regs0, i, known, a, ref);
    DoTest(w, at.p', at.jump, at.ctx, at.g, at.tmps, at.regs0, at.tmp, i, at.test, a, t);
    DoJump(w, at.p, at.jump, next, at.l, at.ctx, at.g, at.tmps, at.regs0, at.tmp, i, t, b);
    TripleRound(w.Program(), at.p, at.p1, at.p', at.jump, at.l, a, t, b, next, ref);
  }

  /** The body keeps the registers of iteration `i` and does its part. */
  ghost predicate BodyOk(w: World, p: nat, q: nat, ctx: Ctx, g: nat, tmps: nat, regs0: Regs, refs: nat -> seq<RefEvent>, i: nat) {
    var known := Inside(EnterLoop(ctx, g, i), tmps, regs0);
    Triple(w.Program(), p, q, known, known, refs(i))
  }

  /** The points between the iterations of a loop. */
  ghost function Iterations(ctx: Ctx, g: nat, tmps: nat, regs0: Regs): nat -> Point {
    (i: nat) => Between(ctx, g, tmps, regs0, i)
  }

  /** Everything that does not depend on the iteration. */
  ghost predicate LoopSite(w: World, at: RoundsPlace) {
    w.fun.Valid() && LoopAt(w, at.p, at.p1, at.p', at.jump, at.q, at.l, at.tmp, at.g, at.test) && CanEnter(w.fun.space, at.ctx, at.g) && at.tmps <= at.tmp && LoopReady(w, at.ctx, at.g)
  }

  lemma RoundAt(w: World, at: RoundsPlace, refs: nat -> seq<RefEvent>, n: nat, i: nat, inv: nat -> Point)
    requires LoopSite(w, at) && BodyOk(w, at.p1, at.p', at.ctx, at.g, at.tmps, at.regs0, refs, i)
    requires n == Rounds(w.vals, w.fun.space.dims[at.g]) && inv == Iterations(at.ctx, at.g, at.tmps, at.regs0)
    ensures RoundOk(w.Program(), at.p, at.q, inv, refs, n, i)
  {
    var next := if i + 1 < n then at.p else at.q;
    DoRound(w, at, next, i, Inside(EnterLoop(at.ctx, at.g, i), at.tmps, at.regs0), inv(i), inv(i + 1), refs(i));
  }

  lemma DoLoop(w: World, at: RoundsPlace, refs: nat -> seq<RefEvent>, n: nat, pre: Point, post: Point)
    requires LoopSite(w, at)
    requires forall i: nat :: i < n ==> BodyOk(w, at.p1, at.p', at.ctx, at.g, at.tmps, at.regs0, refs, i)
    requires n == Rounds(w.vals, w.fun.space.dims[at.g]) >= 1
    requires pre == Between(at.ctx, at.g, at.tmps, at.regs0, 0) && post == Between(at.ctx, at.g, at.tmps, at.regs0, n)
    ensures Triple(w.Program(), at.p, at.q, pre, post, Repeated(refs, n))
  {
    var inv := Iterations(at.ctx, at.g, at.tmps, at.regs0);
    forall i: nat | i < n ensures RoundOk(w.Program(), at.p, at.q, inv, refs, n, i) {
      RoundAt(w, at, refs, n, i, inv);
    }
    TripleLoop(w.Program(), at.p, at.q, inv, refs, n, n, at.q, pre, post);
  }

  // ----- Unrolled loops -----

  /** A condition on registers may be split into its instances. */
  lemma DoRigid(w: World, p: nat, q: nat, pre: Point, post: Point, ref: seq<RefEvent>)
    requires forall r :: w.Sat(pre, r) ==> Triple(w.Program(), p, q, Exactly(r), post, ref)
    ensures Triple(w.Program(), p, q, pre, post, ref)
  {
    var prog := w.Program();
    forall regs, trace | Go(prog, pre, regs, trace)
      ensures exists regs', events :: Arrives(prog, p, q, post, ref, regs, trace, regs', events)
    {
      assert prog.sat(pre, regs) && w.Sat(pre, regs);
      assert w.Sat(Exactly(regs), regs) && prog.sat(Exactly(regs), regs);
      var regs', events := RunTriple(prog, p, q, Exactly(regs), post, ref, regs, trace);
      assert Arrives(prog, p, q, post, ref, regs, trace, regs', events);
    }
  }

  lemma DoStart(w: World, p: nat, q: nat, ctx: Ctx, g: nat, tmps: nat, regs0: Regs, levels: seq<Level>, from: nat, pre: Point, post: Point)
    requires w.fun.Valid() && CanEnter(w.fun.space, ctx, g) && w.fun.space.dims[g].kind.Unroll? && levels == w.fun.LoopLevels(g)
    requires (forall k :: 0 <= k < |levels| ==> levels[k].base.NumComponents() > 0) && tmps <= from
    requires At(w.code, p, UnrolledInit(levels, |levels|, from)) && q == p + |UnrolledInit(levels, |levels|, from)|
    requires pre == Inside(ctx, tmps, regs0)
    requires post == Started(ctx, g, tmps, regs0, UnrolledBases(levels, |levels|, from), UnrolledTmps(levels, |levels|, from))
    ensures Triple(w.Program(), p, q, pre, post, [])
  {
    var f := (regs: Regs) => UnrolledInitRegs(regs, levels, |levels|, from);
    forall regs, trace ensures Runs(w.code, p, UnrolledInit(levels, |levels|, from), regs, f(regs), trace) {
      RunUnrolledInit(w.code, p, regs, levels, |levels|, from, trace);
    }
    forall regs | w.Program().sat(pre, regs) ensures w.Program().sat(post, f(regs)) {
      assert w.Sat(pre, regs);
      UnrolledStartAt(w.fun, w.vals, ctx, g, from, regs);
      assert w.Sat(post, f(regs));
    }
    TripleStraight(w.Program(), p, q, UnrolledInit(levels, |levels|, from), f, pre, post);
  }

  /** The bases of the levels, held by the registers `regs0` the copies started from. */
  ghost predicate BasesAt(w: World, ctx: Ctx, g: nat, tmps: nat, regs0: Regs, bases: seq<Operand>) {
    && g < |w.fun.space.dims| && |bases| == |w.fun.LoopLevels(g)|
    && RegInv(w.fun.space, w.vals, ctx, regs0)
    && BasesHold(Know(w.fun.space, w.vals, ctx), tmps, regs0, w.fun.LoopLevels(g), bases)
  }

  lemma AdvancedAt(w: World, ctx: Ctx, g: nat, tmps: nat, regs0: Regs, bases: seq<Operand>, i: nat, regs: Regs)
    requires w.fun.Valid() && CanEnter(w.fun.space, ctx, g) && w.fun.space.dims[g].kind.Unroll? && i > 0
    requires BasesAt(w, ctx, g, tmps, regs0, bases) && w.Sat(Between(ctx, g, tmps, regs0, i - 1), regs)
    ensures w.Sat(Between(ctx, g, tmps, regs0, i), UnrolledRegs(regs, w.fun.LoopLevels(g), bases, |bases|, i))
  {
    var known := Know(w.fun.space, w.vals, ctx);
    RegInvHolds(w.fun.space, w.vals, ctx, regs0);
    BasesPersist(known, tmps, tmps, regs0, regs, w.fun.LoopLevels(g), bases);
    UnrolledNextAt(w.fun, w.vals, ctx, g, bases, tmps, regs, i);
    assert TmpsKept(tmps, regs, UnrolledRegs(regs, w.fun.LoopLevels(g), bases, |bases|, i));
  }

  /** Between two copies of its body, an unrolled loop advances its levels. */
  lemma DoAdvance(w: World, p: nat, q: nat, ctx: Ctx, g: nat, tmps: nat, regs0: Regs, bases: seq<Operand>, i: nat, pre: Point, post: Point)
    requires w.fun.Valid() && CanEnter(w.fun.space, ctx, g) && w.fun.space.dims[g].kind.Unroll? && i > 0
    requires BasesAt(w, ctx, g, tmps, regs0, bases)
    requires At(w.code, p, UnrolledAdvance(w.fun.LoopLevels(g), bases, |bases|, i)) && q == p + |UnrolledAdvance(w.fun.LoopLevels(g), bases, |bases|, i)|
    requires pre == Between(ctx, g, tmps, regs0, i - 1) && post == Between(ctx, g, tmps, regs0, i)
    ensures Triple(w.Program(), p, q, pre, post, [])
  {
    var levels := w.fun.LoopLevels(g);
    var f := (regs: Regs) => UnrolledRegs(regs, levels, bases, |bases|, i);
    forall regs, trace ensures Runs(w.code, p, UnrolledAdvance(levels, bases, |bases|, i), regs, f(regs), trace) {
      RunUnrolled(w.code, p, regs, levels, bases, |bases|, i, trace);
    }
    forall regs | w.Program().sat(pre, regs) ensures w.Program().sat(post, f(regs)) {
      assert w.Sat(pre, regs);
      AdvancedAt(w, ctx, g, tmps, regs0, bases, i, regs);
      assert w.Sat(post, f(regs));
    }
    TripleStraight(w.Program(), p, q, UnrolledAdvance(levels, bases, |bases|, i), f, pre, post);
  }

  /** The point before copy `k`. */
  function BeforeCopy(ctx: Ctx, g: nat, tmps: nat, regs0: Regs, k: nat): Point {
    Between(ctx, g, tmps, regs0, if k == 0 then 0 else k - 1)
  }

  /** One copy of the body of an unrolled loop. */
  lemma DoCopy(w: World, p: nat, p': nat, q: nat, ctx: Ctx, g: nat, tmps: nat, regs0: Regs, bases: seq<Operand>, k: nat, advance: seq<Instr>, known: Point, ref: seq<RefEvent>, pre: Point, post: Point)
    requires w.fun.Valid() && CanEnter(w.fun.space, ctx, g) && w.fun.space.dims[g].kind.Unroll? && BasesAt(w, ctx, g, tmps, regs0, bases)
    requires advance == (if k > 0 then UnrolledAdvance(w.fun.LoopLevels(g), bases, |bases|, k) else [])
    requires At(w.code, p, advance) && p' == p + |advance|
    requires known == Inside(EnterLoop(ctx, g, k), tmps, regs0) && Triple(w.Program(), p', q, known, known, ref)
    requires pre == BeforeCopy(ctx, g, tmps, regs0, k) && post == Between(ctx, g, tmps, regs0, k)
    ensures Triple(w.Program(), p, q, pre, post, ref)
  {
    if k == 0 {
      TripleEmpty(w.Program(), p, pre);
    } else {
      DoAdvance(w, p, p', ctx, g, tmps, regs0, bases, k, pre, post);
    }
    DoIteration(w, p', q, ctx, g, tmps, regs0, k, known, post, ref);
    TripleThen(w.Program(), p, p', q, pre, post, post, [], ref, ref);
  }

  /** From the rigid registers of the start of the copies back to the context of the loop. */
  lemma DoCopied(w: World, p: nat, q: nat, ctx: Ctx, g: nat, tmps: nat, regs0: Regs, bases: seq<Operand>, tmps': nat, r: Regs, i: nat, first: Point, last: Point, post: Point, ref: seq<RefEvent>)
    requires g < |w.fun.space.dims| && w.Sat(Started(ctx, g, tmps, regs0, bases, tmps'), r) && tmps <= tmps'
    requires first == Between(ctx, g, tmps', r, 0) && last == Between(ctx, g, tmps', r, i) && post == Inside(ctx, tmps, regs0)
    requires Triple(w.Program(), p, q, first, last, ref)
    ensures Triple(w.Program(), p, q, Exactly(r), post, ref)
  {
    forall s | w.Program().sat(Exactly(r), s) ensures w.Program().sat(first, s) {
      assert w.Sat(Exactly(r), s);
      assert w.Sat(first, s);
    }
    forall s | w.Program().sat(last, s) ensures w.Program().sat(post, s) {
      assert w.Sat(last, s);
      RegInvHolds(w.fun.space, w.vals, ctx, s);
      assert w.Sat(post, s);
    }
    TripleConsequence(w.Program(), p, q, first, last, Exactly(r), post, ref);
  }

  // ----- Blocks of threads -----

  function ThreadsOpening(fun: Function, active: seq<Option<nat>>, names: Names, levels: seq<Level>): seq<Instr>
    requires |active| <= |fun.threadDims| && forall k :: 0 <= k < |levels| ==> ParallelPrintable(levels[k])
  {
    GuardCode(fun, active, |active|, names).code + ParallelCodes(fun.space, levels, |levels|)
  }

  function ThreadsOpeningRegs(fun: Function, active: seq<Option<nat>>, names: Names, levels: seq<Level>, regs: Regs): Regs
    requires |active| <= |fun.threadDims| && forall k :: 0 <= k < |levels| ==> ParallelPrintable(levels[k])
  {
    ParallelRegs(GuardRegs(fun, active, |active|, names, regs), fun.space, levels, |levels|)
  }

  lemma RunThreadsOpening(code: seq<Instr>, p: nat, fun: Function, active: seq<Option<nat>>, names: Names, levels: seq<Level>, regs: Regs, trace: seq<Event>)
    requires |active| <= |fun.threadDims| && forall k :: 0 <= k < |levels| ==> ParallelPrintable(levels[k])
    requires At(code, p, ThreadsOpening(fun, active, names, levels))
    ensures Runs(code, p, ThreadsOpening(fun, active, names, levels), regs, ThreadsOpeningRegs(fun, active, names, levels, regs), trace)
  {
    var guard := GuardCode(fun, active, |active|, names).code;
    var parallel := ParallelCodes(fun.space, levels, |levels|);
    var regs1 := GuardRegs(fun, active, |active|, names, regs);
    AtConcat(code, p, guard, parallel);
    RunGuard(code, p, fun, active, |active|, names, regs, trace);
    RunParallel(code, p + |guard|, regs1, fun.space, levels, |levels|, trace);
    RunsConcat(code, p, guard, parallel, regs, regs1, ParallelRegs(regs1, fun.space, levels, |levels|), trace);
  }

  lemma DoOpenThreads(w: World, p: nat, q: nat, active: seq<Option<nat>>, names: Names, levels: seq<Level>, ctx: Ctx, tmps: nat, regs0: Regs, pre: Point, post: Point)
    requires w.fun.Valid() && ActiveOk(w.fun, active) && CtxOk(w.fun.space, ctx) && ctx.active == {} && levels == w.fun.ThreadLevels(active)
    requires (forall k :: 0 <= k < |levels| ==> ParallelPrintable(levels[k])) && tmps <= names.tmps
    requires At(w.code, p, ThreadsOpening(w.fun, active, names, levels)) && q == p + |ThreadsOpening(w.fun, active, names, levels)|
    requires pre == Inside(ctx, tmps, regs0)
    requires post == Opened(EnterThreads(w.fun, active, ctx), GuardCode(w.fun, active, |active|, names).names, tmps, regs0)
    ensures Triple(w.Program(), p, q, pre, post, [])
  {
    var opening := ThreadsOpening(w.fun, active, names, levels);
    var f := (regs: Regs) => ThreadsOpeningRegs(w.fun, active, names, levels, regs);
    forall regs, trace ensures Runs(w.code, p, opening, regs, f(regs), trace) {
      RunThreadsOpening(w.code, p, w.fun, active, names, levels, regs, trace);
    }
    forall regs | w.Program().sat(pre, regs) ensures w.Program().sat(post, f(regs)) {
      assert w.Sat(pre, regs);
      EnterThreadsReady(w.fun, w.vals, active, names, ctx, regs);
      assert w.Sat(post, f(regs));
    }
    TripleStraight(w.Program(), p, q, opening, f, pre, post);
  }

  lemma DoLeaveThreads(w: World, p: nat, q: nat, active: seq<Option<nat>>, guard: Names, ctx: Ctx, tmps: nat, regs0: Regs, r: Regs, inner: Point, post: Point, ref: seq<RefEvent>)
    requires ctx.active == {} && tmps <= guard.tmps && w.Sat(Opened(EnterThreads(w.fun, active, ctx), guard, tmps, regs0), r)
    requires inner == Inside(EnterThreads(w.fun, active, ctx), guard.tmps, r) && post == Inside(ctx, tmps, regs0)
    requires Triple(w.Program(), p, q, inner, inner, ref)
    ensures Triple(w.Program(), p, q, Exactly(r), post, ref)
  {
    forall s | w.Program().sat(Exactly(r), s) ensures w.Program().sat(inner, s) {
      assert w.Sat(Exactly(r), s);
      assert w.Sat(inner, s);
    }
    forall s | w.Program().sat(inner, s) ensures w.Program().sat(post, s) {
      assert w.Sat(inner, s);
      LeaveThreadsRegs(w.fun, w.vals, active, ctx, s);
      assert w.Sat(post, s);
    }
    TripleConsequence(w.Program(), p, q, inner, inner, Exactly(r), post, ref);
  }
}
