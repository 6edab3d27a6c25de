/** What runs of flat code do, for any conditions on the registers. */
module Triples {
  import opened Wrappers
  import opened InductionVars
  import opened LoopCode
  import opened StraightCode

  /**
   A program, what conditions mean for its registers, and the events expected of it: `matches`
   compares an event with what is expected.
   */
  datatype Program<!Cond, !Ref> = Program(code: seq<Instr>, sat: (Cond, Regs) -> bool, matches: (Event, Ref) -> bool)

  ghost predicate AllMatch<Cond(!new), Ref(!new)>(w: Program<Cond, Ref>, events: seq<Event>, ref: seq<Ref>) {
    |events| == |ref| && forall k :: 0 <= k < |events| ==> w.matches(events[k], ref[k])
  }

  ghost predicate Go<Cond(!new), Ref(!new)>(w: Program<Cond, Ref>, pre: Cond, regs: Regs, trace: seq<Event>) {
    w.sat(pre, regs)
  }

  ghost predicate Arrives<Cond(!new), Ref(!new)>(w: Program<Cond, Ref>, p: nat, q: nat, post: Cond, ref: seq<Ref>,
                               regs: Regs, trace: seq<Event>, regs': Regs, events: seq<Event>) {
    && Reaches(w.code, Machine(p, regs, trace), Machine(q, regs', trace + events))
    && w.sat(post, regs') && AllMatch(w, events, ref)
  }

  /** From registers where `pre` holds, the code goes from `p` to `q`, does `ref`, and `post` holds. */
  ghost predicate Triple<Cond(!new), Ref(!new)>(w: Program<Cond, Ref>, p: nat, q: nat, pre: Cond, post: Cond, ref: seq<Ref>) {
    forall regs, trace {:trigger Go(w, pre, regs, trace)} :: Go(w, pre, regs, trace) ==>
      exists regs', events :: Arrives(w, p, q, post, ref, regs, trace, regs', events)
  }

  lemma RunTriple<Cond(!new), Ref(!new)>(w: Program<Cond, Ref>, p: nat, q: nat, pre: Cond, post: Cond, ref: seq<Ref>, regs: Regs, trace: seq<Event>)
    returns (regs': Regs, events: seq<Event>)
    requires Triple(w, p, q, pre, post, ref) && w.sat(pre, regs)
    ensures Reaches(w.code, Machine(p, regs, trace), Machine(q, regs', trace + events))
    ensures w.sat(post, regs') && AllMatch(w, events, ref)
  {
    assert Go(w, pre, regs, trace);
    regs', events :| Arrives(w, p, q, post, ref, regs, trace, regs', events);
  }

  lemma TripleEmpty<Cond(!new), Ref(!new)>(w: Program<Cond, Ref>, p: nat, pre: Cond)
    ensures Triple(w, p, p, pre, pre, [])
  {
    forall regs, trace | Go(w, pre, regs, trace)
      ensures exists regs', events :: Arrives(w, p, p, pre, [], regs, trace, regs', events)
    {
      ReachesSelf(w.code, Machine(p, regs, trace));
      assert trace + [] == trace;
      assert Arrives(w, p, p, pre, [], regs, trace, regs, []);
    }
  }

  lemma TripleThen<Cond(!new), Ref(!new)>(w: Program<Cond, Ref>, p: nat, q: nat, r: nat, a: Cond, b: Cond, c: Cond, ra: seq<Ref>, rb: seq<Ref>, ref: seq<Ref>)
    requires Triple(w, p, q, a, b, ra) && Triple(w, q, r, b, c, rb) && ref == ra + rb
    ensures Triple(w, p, r, a, c, ref)
  {
    forall regs, trace | Go(w, a, regs, trace)
      ensures exists regs', events :: Arrives(w, p, r, c, ref, regs, trace, regs', events)
    {
      var r1, ea := RunTriple(w, p, q, a, b, ra, regs, trace);
      var r2, eb := RunTriple(w, q, r, b, c, rb, r1, trace + ea);
      assert trace + ea + eb == trace + (ea + eb);
      ReachesTrans(w.code, Machine(p, regs, trace), Machine(q, r1, trace + ea), Machine(r, r2, trace + (ea + eb)));
      assert Arrives(w, p, r, c, ref, regs, trace, r2, ea + eb);
    }
  }

  /** Conditions may be strengthened before and weakened after. */
  lemma TripleConsequence<Cond(!new), Ref(!new)>(w: Program<Cond, Ref>, p: nat, q: nat, a: Cond, b: Cond, a': Cond, b': Cond, ref: seq<Ref>)
    requires Triple(w, p, q, a, b, ref)
    requires forall r :: w.sat(a', r) ==> w.sat(a, r)
    requires forall r :: w.sat(b, r) ==> w.sat(b', r)
    ensures Triple(w, p, q, a', b', ref)
  {
    forall regs, trace | Go(w, a', regs, trace)
      ensures exists regs', events :: Arrives(w, p, q, b', ref, regs, trace, regs', events)
    {
      var regs', events := RunTriple(w, p, q, a, b, ref, regs, trace);
      assert Arrives(w, p, q, b', ref, regs, trace, regs', events);
    }
  }

  /** Straight-line code, which computes `f` of the registers. */
  lemma TripleStraight<Cond(!new), Ref(!new)>(w: Program<Cond, Ref>, p: nat, q: nat, frag: seq<Instr>, f: Regs -> Regs, pre: Cond, post: Cond)
    requires q == p + |frag|
    requires forall regs, trace :: Runs(w.code, p, frag, regs, f(regs), trace)
    requires forall regs :: w.sat(pre, regs) ==> w.sat(post, f(regs))
    ensures Triple(w, p, q, pre, post, [])
  {
    forall regs, trace | Go(w, pre, regs, trace)
      ensures exists regs', events :: Arrives(w, p, q, post, [], regs, trace, regs', events)
    {
      assert Runs(w.code, p, frag, regs, f(regs), trace);
      assert trace + [] == trace;
      assert Arrives(w, p, q, post, [], regs, trace, f(regs), []);
    }
  }

  /** One instruction that records an event. */
  lemma TripleEvent<Cond(!new), Ref(!new)>(w: Program<Cond, Ref>, p: nat, q: nat, i: Instr, pre: Cond, r: Ref)
    requires q == p + 1
    requires p < |w.code| && w.code[p] == i && (i.Sync? || i.Exec?)
    requires i.Sync? ==> w.matches(Barrier, r)
    requires i.Exec? ==> forall regs :: w.sat(pre, regs) ==>
      w.matches(Ran(i.inst, i.current, i.guard.None? || Get(regs, i.guard.value) != 0, regs), r)
    ensures Triple(w, p, q, pre, pre, [r])
  {
    forall regs, trace | Go(w, pre, regs, trace)
      ensures exists regs', events :: Arrives(w, p, q, pre, [r], regs, trace, regs', events)
    {
      var m := Machine(p, regs, trace);
      ReachesStep(w.code, m);
      var e := if i.Sync? then Barrier else Ran(i.inst, i.current, i.guard.None? || Get(regs, i.guard.value) != 0, regs);
      assert Arrives(w, p, q, pre, [r], regs, trace, regs, [e]);
    }
  }

  lemma TripleLabel<Cond(!new), Ref(!new)>(w: Program<Cond, Ref>, p: nat, l: nat, pre: Cond)
    requires p < |w.code| && w.code[p] == Label(l)
    ensures Triple(w, p, p + 1, pre, pre, [])
  {
    var q := p + 1;
    forall regs, trace | Go(w, pre, regs, trace)
      ensures exists regs', events :: Arrives(w, p, q, pre, [], regs, trace, regs', events)
    {
      ReachesStep(w.code, Machine(p, regs, trace));
      assert trace + [] == trace;
      assert Arrives(w, p, q, pre, [], regs, trace, regs, []);
    }
  }

  /** A conditional jump to `target` that is taken exactly when `taken`. */
  lemma TripleJump<Cond(!new), Ref(!new)>(w: Program<Cond, Ref>, p: nat, q: nat, l: nat, cond: Reg, target: nat, taken: bool, pre: Cond)
    requires q == if taken then target else p + 1
    requires p < |w.code| && w.code[p] == JumpIf(l, cond) && Find(w.code, l) == target
    requires forall regs :: w.sat(pre, regs) ==> (Get(regs, cond) != 0 <==> taken)
    ensures Triple(w, p, q, pre, pre, [])
  {
    forall regs, trace | Go(w, pre, regs, trace)
      ensures exists regs', events :: Arrives(w, p, q, pre, [], regs, trace, regs', events)
    {
      ReachesStep(w.code, Machine(p, regs, trace));
      assert trace + [] == trace;
      assert Arrives(w, p, q, pre, [], regs, trace, regs, []);
    }
  }

  /** What `n` rounds do, given what each one does. */
  function Repeated<Ref>(refs: nat -> seq<Ref>, n: nat): seq<Ref> {
    if n == 0 then [] else Repeated(refs, n - 1) + refs(n - 1)
  }

  /** Round `i` of `n` goes back to `p`, and the last one to `q`. */
  ghost predicate RoundOk<Cond(!new), Ref(!new)>(w: Program<Cond, Ref>, p: nat, q: nat, inv: nat -> Cond, refs: nat -> seq<Ref>, n: nat, i: nat) {
    Triple(w, p, if i + 1 < n then p else q, inv(i), inv(i + 1), refs(i))
  }

  /** The first `k` rounds of a loop. */
  lemma {:induction false} TripleLoop<Cond(!new), Ref(!new)>(w: Program<Cond, Ref>, p: nat, q: nat, inv: nat -> Cond, refs: nat -> seq<Ref>, n: nat, k: nat, next: nat, pre: Cond, post: Cond)
    requires 1 <= k <= n && next == (if k < n then p else q) && pre == inv(0) && post == inv(k)
    requires forall i: nat :: i < n ==> RoundOk(w, p, q, inv, refs, n, i)
    ensures Triple(w, p, next, pre, post, Repeated(refs, k))
    decreases k
  {
    assert RoundOk(w, p, q, inv, refs, n, k - 1);
    if k == 1 {
      assert Repeated(refs, 1) == Repeated(refs, 0) + refs(0) == refs(0);
    } else {
      TripleLoop(w, p, q, inv, refs, n, k - 1, p, pre, inv(k - 1));
      TripleThen(w, p, p, next, pre, inv(k - 1), post, Repeated(refs, k - 1), refs(k - 1), Repeated(refs, k));
    }
  }

  /** A label at `p`, a body up to `p'`, a test up to `jump`, and a jump to `next`. */
  lemma TripleRound<Cond(!new), Ref(!new)>(w: Program<Cond, Ref>, p: nat, p1: nat, p': nat, jump: nat, l: nat, a: Cond, t: Cond, b: Cond, next: nat, ref: seq<Ref>)
    requires p < |w.code| && w.code[p] == Label(l) && p1 == p + 1
    requires Triple(w, p1, p', a, a, ref) && Triple(w, p', jump, a, t, []) && Triple(w, jump, next, t, b, [])
    ensures Triple(w, p, next, a, b, ref)
  {
    TripleLabel(w, p, l, a);
    TripleThen(w, p, p1, p', a, a, a, [], ref, ref);
    TripleThen(w, p, p', jump, a, a, t, ref, [], ref);
    TripleThen(w, p, jump, next, a, t, b, ref, [], ref);
  }

  /** The position of the copies of the body of an unrolled loop. */
  ghost predicate CopyOk<Cond(!new), Ref(!new)>(w: Program<Cond, Ref>, at: nat -> nat, inv: nat -> Cond, refs: nat -> seq<Ref>, i: nat) {
    Triple(w, at(i), at(i + 1), inv(i), inv(i + 1), refs(i))
  }

  /** Copies laid out one after the other. */
  lemma {:induction false} TripleCopies<Cond(!new), Ref(!new)>(w: Program<Cond, Ref>, at: nat -> nat, inv: nat -> Cond, refs: nat -> seq<Ref>, n: nat)
    requires forall i: nat :: i < n ==> CopyOk(w, at, inv, refs, i)
    ensures Triple(w, at(0), at(n), inv(0), inv(n), Repeated(refs, n))
  {
    if n == 0 {
      TripleEmpty(w, at(0), inv(0));
    } else {
      TripleCopies(w, at, inv, refs, n - 1);
      assert CopyOk(w, at, inv, refs, n - 1);
      TripleThen(w, at(0), at(n - 1), at(n), inv(0), inv(n - 1), inv(n), Repeated(refs, n - 1), refs(n - 1), Repeated(refs, n));
    }
  }
}
