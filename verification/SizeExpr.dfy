/** Symbolic sizes as the bounds see them, and the values of their products. */
module SizeExprs {
  import opened Divisibility
  import opened Products
  import opened PartialSizes
  import SB = SizeBounds

  // ----- Sets in order -----

  /** The elements of a set, the least first. */
  function ToSeq(s: set<nat>): seq<nat> {
    if s == {} then []
    else
      LeastExists(s);
      var m :| m in s && forall x :: x in s ==> m <= x;
      ToSeq(s - {m}) + [m]
  }

  lemma {:induction false} LeastOf(s: set<nat>) returns (m: nat)
    requires s != {}
    ensures m in s && forall x :: x in s ==> m <= x
    decreases s
  {
    var y :| y in s;
    var others := s - {y};
    assert forall x :: x in s ==> x == y || x in others;
    m := y;
    if others != {} {
      m := LeastOf(others);
      if y < m {
        m := y;
      }
    }
  }

  lemma LeastExists(s: set<nat>)
    requires s != {}
    ensures exists m :: m in s && forall x :: x in s ==> m <= x
  {
    var m := LeastOf(s);
  }

  lemma {:induction false} ToSeqMembers(s: set<nat>)
    ensures forall x :: x in ToSeq(s) <==> x in s
    decreases s
  {
    if s != {} {
      LeastExists(s);
      var m :| m in s && (forall x :: x in s ==> m <= x) && ToSeq(s) == ToSeq(s - {m}) + [m];
      ToSeqMembers(s - {m});
    }
  }

  lemma {:induction false} ToSeqTimes(f: nat -> nat, s: set<nat>)
    ensures Times(f, ToSeq(s)) == Prod(f, s)
    decreases s
  {
    if s != {} {
      LeastExists(s);
      var m :| m in s && (forall x :: x in s ==> m <= x) && ToSeq(s) == ToSeq(s - {m}) + [m];
      ToSeqTimes(f, s - {m});
      ProdRemove(f, s, m);
      Commute(f(m), Prod(f, s - {m}));
    }
  }

  // ----- Sizes -----

  /** The constant part with the parameters, and the dimensions and divisors in order. */
  function SizeOf(e: Expr, param: nat -> nat): SB.Size {
    SB.Size(e.factor * Times(param, e.params), ToSeq(e.dims), ToSeq(e.divisors))
  }

  /** `v` is the exact value of the expression. */
  ghost predicate HasValue(e: Expr, env: Env, v: nat) {
    Den(e, env) > 0 && Num(e, env) == v * Den(e, env)
  }

  /** An exact value is what the bounds are about. */
  lemma ValueOfSize(e: Expr, param: nat -> nat, domain: SB.Domain, c: nat -> nat, v: nat)
    requires HasValue(e, Env(param, c), v) && v > 0
    requires forall d :: d in e.dims + e.divisors ==> SB.Positive(domain(d)) && c(d) in domain(d)
    ensures var size := SizeOf(e, param); SB.Choice(domain, size, c) && SB.Value(size, c) == v && size.factor > 0
  {
    var size := SizeOf(e, param);
    ToSeqMembers(e.dims);
    ToSeqMembers(e.divisors);
    ToSeqTimes(c, e.dims);
    ToSeqTimes(c, e.divisors);
    var den := Times(c, size.divisors);
    Commute(v, den);
    assert size.factor * Times(c, size.dims) == den * v;
    QuotientIs(den, size.factor * Times(c, size.dims), v);
    MulPositive(den, v);
    assert size.factor == 0 ==> size.factor * Times(c, size.dims) == 0;
  }

  /** Expressions without common dimensions or divisors multiply their values. */
  lemma ProductHasValue(a: Expr, b: Expr, env: Env, x: nat, y: nat)
    requires HasValue(a, env, x) && HasValue(b, env, y) && a.dims !! b.dims && a.divisors !! b.divisors
    requires Den(Product(a, b), env) > 0
    ensures HasValue(Product(a, b), env, x * y)
  {
    DisjointProduct(a, b, env);
    var p, da, db := Product(a, b), Den(a, env), Den(b, env);
    FourFactors(x, da, y, db);
    MulPositive(da, db);
    Rearrange(Num(p, env), da * db, x * y, Den(p, env));
  }

  lemma Rearrange(n: nat, d: nat, v: nat, p: nat)
    requires d > 0 && n * d == (v * d) * p
    ensures n == v * p
  {
    Assoc(v, d, p);
    Commute(d, p);
    Assoc(v, p, d);
    Commute(n, d);
    Commute(v * p, d);
    Cancel(d, n, v * p);
  }

  // ----- Products of some of the dimensions around an instruction -----

  /** The product of the sizes kept. */
  function Kept(sizes: seq<Expr>, keep: seq<bool>): Expr
    requires |keep| == |sizes|
  {
    if sizes == [] then Expr(1, [], {}, {})
    else
      var n := |sizes| - 1;
      var before := Kept(sizes[..n], keep[..n]);
      if keep[n] then Product(before, sizes[n]) else before
  }

  function KeptValue(values: seq<nat>, keep: seq<bool>): nat
    requires |keep| == |values|
  {
    if values == [] then 1
    else
      var n := |values| - 1;
      KeptValue(values[..n], keep[..n]) * if keep[n] then values[n] else 1
  }

  function AllDims(sizes: seq<Expr>): set<nat> {
    if sizes == [] then {} else AllDims(sizes[..|sizes| - 1]) + sizes[|sizes| - 1].dims
  }

  function AllDivisors(sizes: seq<Expr>): set<nat> {
    if sizes == [] then {} else AllDivisors(sizes[..|sizes| - 1]) + sizes[|sizes| - 1].divisors
  }

  /** The sizes share neither dimensions nor divisors. */
  ghost predicate Apart(sizes: seq<Expr>) {
    sizes != [] ==>
      var n := |sizes| - 1;
      Apart(sizes[..n]) && sizes[n].dims !! AllDims(sizes[..n]) && sizes[n].divisors !! AllDivisors(sizes[..n])
  }

  ghost predicate HaveValues(sizes: seq<Expr>, env: Env, values: seq<nat>) {
    |values| == |sizes| && forall k :: 0 <= k < |sizes| ==> HasValue(sizes[k], env, values[k]) && values[k] > 0
  }

  lemma {:induction false} KeptDims(sizes: seq<Expr>, keep: seq<bool>)
    requires |keep| == |sizes|
    ensures Kept(sizes, keep).dims <= AllDims(sizes) && Kept(sizes, keep).divisors <= AllDivisors(sizes)
  {
    if sizes != [] {
      KeptDims(sizes[..|sizes| - 1], keep[..|sizes| - 1]);
    }
  }

  /** The product of sizes without common dimensions has the product of their values. */
  lemma {:induction false} KeptHasValue(sizes: seq<Expr>, keep: seq<bool>, env: Env, values: seq<nat>)
    requires |keep| == |sizes| && Apart(sizes) && HaveValues(sizes, env, values)
    requires forall d :: d in AllDivisors(sizes) ==> env.size(d) > 0
    ensures HasValue(Kept(sizes, keep), env, KeptValue(values, keep)) && KeptValue(values, keep) > 0
  {
    if sizes != [] {
      var n := |sizes| - 1;
      KeptHasValue(sizes[..n], keep[..n], env, values[..n]);
      KeptDims(sizes[..n], keep[..n]);
      KeptDims(sizes, keep);
      ProdPositive(env.size, Kept(sizes, keep).divisors);
      if keep[n] {
        ProductHasValue(Kept(sizes[..n], keep[..n]), sizes[n], env, KeptValue(values[..n], keep[..n]), values[n]);
        MulPositive(KeptValue(values[..n], keep[..n]), values[n]);
      }
    } else {
      assert Prod(env.size, {}) == 1;
    }
  }

  /** Keeping more dimensions multiplies the value. */
  lemma {:induction false} KeepMore(values: seq<nat>, keep: seq<bool>, more: seq<bool>)
    requires |keep| == |more| == |values| && forall k :: 0 <= k < |keep| && keep[k] ==> more[k]
    ensures Divides(KeptValue(values, keep), KeptValue(values, more))
  {
    if values == [] {
      DividesSelf(1);
    } else {
      var n := |values| - 1;
      KeepMore(values[..n], keep[..n], more[..n]);
      DividesSelf(values[n]);
      DividesSelf(1);
      DividesProduct(KeptValue(values[..n], keep[..n]), KeptValue(values[..n], more[..n]),
                     if keep[n] then values[n] else 1, if more[n] then values[n] else 1);
    }
  }
}
