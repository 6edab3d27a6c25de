/** Symbolic sizes: products and quotients of constants, parameters and dimensions, updated in place. */
module PartialSizes {
  import opened Divisibility
  import opened Products

  /** `factor * params * dims / divisors`; a dimension stands for its size. */
  datatype Expr = Expr(factor: nat, params: seq<nat>, dims: set<nat>, divisors: set<nat>) {
    /** No dimension is both a factor and a divisor. */
    ghost predicate Simplified() {
      dims !! divisors
    }
  }

  /** The values of the parameters and the sizes of the dimensions. */
  datatype Env = Env(param: nat -> nat, size: nat -> nat) {
    ghost predicate Positive() {
      (forall p :: param(p) > 0) && forall d :: size(d) > 0
    }
  }

  // ----- Products -----

  ghost function Prod(f: nat -> nat, s: set<nat>): nat {
    if s == {} then 1 else
      var x :| x in s;
      f(x) * Prod(f, s - {x})
  }

  /** Any element can be taken first. */
  lemma {:induction false} ProdRemove(f: nat -> nat, s: set<nat>, x: nat)
    requires x in s
    ensures Prod(f, s) == f(x) * Prod(f, s - {x})
    decreases s
  {
    var y :| y in s && Prod(f, s) == f(y) * Prod(f, s - {y});
    if y != x {
      ProdRemove(f, s - {y}, x);
      ProdRemove(f, s - {x}, y);
      assert s - {y} - {x} == s - {x} - {y};
      Swap(f(y), f(x), Prod(f, s - {x} - {y}));
    }
  }

  lemma {:induction false} ProdUnion(f: nat -> nat, s: set<nat>, t: set<nat>)
    requires s !! t
    ensures Prod(f, s + t) == Prod(f, s) * Prod(f, t)
    decreases s
  {
    if s == {} {
      assert s + t == t;
    } else {
      var x :| x in s;
      ProdRemove(f, s, x);
      ProdRemove(f, s + t, x);
      assert s + t - {x} == (s - {x}) + t;
      ProdUnion(f, s - {x}, t);
      Assoc(f(x), Prod(f, s - {x}), Prod(f, t));
    }
  }

  lemma {:induction false} ProdPositive(f: nat -> nat, s: set<nat>)
    requires forall x :: x in s ==> f(x) > 0
    ensures Prod(f, s) > 0
    decreases s
  {
    if s != {} {
      var x :| x in s && Prod(f, s) == f(x) * Prod(f, s - {x});
      ProdPositive(f, s - {x});
      MulPositive(f(x), Prod(f, s - {x}));
    }
  }

  // ----- Values -----

  ghost function Num(e: Expr, env: Env): nat {
    e.factor * Times(env.param, e.params) * Prod(env.size, e.dims)
  }

  ghost function Den(e: Expr, env: Env): nat {
    Prod(env.size, e.divisors)
  }

  /** Two expressions have the same value, as fractions. */
  ghost predicate SameValue(e: Expr, e': Expr, env: Env) {
    Num(e, env) * Den(e', env) == Num(e', env) * Den(e, env)
  }

  /** `e` is the product of `a` and `b`. */
  ghost predicate IsProduct(e: Expr, a: Expr, b: Expr, env: Env) {
    Num(e, env) * (Den(a, env) * Den(b, env)) == (Num(a, env) * Num(b, env)) * Den(e, env)
  }

  function Simplify(e: Expr): Expr {
    e.(dims := e.dims - e.divisors, divisors := e.divisors - e.dims)
  }

  function Product(a: Expr, b: Expr): Expr {
    Simplify(Expr(a.factor * b.factor, a.params + b.params, a.dims + b.dims, a.divisors + b.divisors))
  }

  lemma FourFactors(a: nat, b: nat, c: nat, d: nat)
    ensures (a * b) * (c * d) == (a * c) * (b * d)
  {
    Assoc(a, b, c * d);
    Swap(b, c, d);
    Assoc(a, c, b * d);
  }

  lemma SplitSet(f: nat -> nat, s: set<nat>, t: set<nat>)
    ensures Prod(f, s) == Prod(f, s - t) * Prod(f, s * t)
  {
    assert s == (s - t) + s * t;
    ProdUnion(f, s - t, s * t);
  }

  /** Cancelling common dimensions keeps the value. */
  lemma SimplifyKeepsValue(e: Expr, env: Env)
    ensures Simplify(e).Simplified() && SameValue(Simplify(e), e, env)
  {
    var f := env.size;
    SplitSet(f, e.dims, e.divisors);
    SplitSet(f, e.divisors, e.dims);
    assert e.dims * e.divisors == e.divisors * e.dims;
    var k, shared := e.factor * Times(env.param, e.params), Prod(f, e.dims * e.divisors);
    var d, v := Prod(f, e.dims - e.divisors), Prod(f, e.divisors - e.dims);
    CrossCancel(k, d, v, shared);
  }

  lemma CrossCancel(k: nat, d: nat, v: nat, s: nat)
    ensures (k * d) * (v * s) == (k * (d * s)) * v
  {
    Assoc(k, d, v * s);
    Assoc(d, v, s);
    Commute(d * v, s);
    Assoc(d, s, v);
    Commute(d, v);
    Assoc(s, d, v);
    Assoc(k, d * s, v);
    Commute(d, s);
    Commute(v, s);
    assert d * (v * s) == (d * s) * v;
  }

  // ----- When products keep the value -----

  /** The union of two sets counts their common elements once. */
  lemma ProdOfUnion(f: nat -> nat, s: set<nat>, t: set<nat>)
    ensures Prod(f, s) * Prod(f, t) == Prod(f, s + t) * Prod(f, s * t)
  {
    SplitSet(f, t, s);
    assert t * s == s * t && s + t == s + (t - s);
    ProdUnion(f, s, t - s);
    Assoc(Prod(f, s), Prod(f, t - s), Prod(f, s * t));
  }

  lemma DisjointProduct(a: Expr, b: Expr, env: Env)
    requires a.dims !! b.dims && a.divisors !! b.divisors
    ensures IsProduct(Product(a, b), a, b, env)
  {
    var joined := Expr(a.factor * b.factor, a.params + b.params, a.dims + b.dims, a.divisors + b.divisors);
    SimplifyKeepsValue(joined, env);
    ProdUnion(env.size, a.dims, b.dims);
    ProdUnion(env.size, a.divisors, b.divisors);
    TimesConcat(env.param, a.params, b.params);
    FourFactors(a.factor, b.factor, Times(env.param, a.params), Times(env.param, b.params));
    FourFactors(a.factor * Times(env.param, a.params), b.factor * Times(env.param, b.params), Prod(env.size, a.dims), Prod(env.size, b.dims));
    assert Num(joined, env) == Num(a, env) * Num(b, env) && Den(joined, env) == Den(a, env) * Den(b, env);
  }

  /** One dimension has size two, everything else is one. */
  function Only(x: nat): Env {
    Env(_ => 1, (d: nat) => if d == x then 2 else 1)
  }

  lemma {:induction false} OnlyProd(x: nat, s: set<nat>)
    ensures Prod(Only(x).size, s) == if x in s then 2 else 1
    decreases s
  {
    if s != {} {
      var y :| y in s && Prod(Only(x).size, s) == Only(x).size(y) * Prod(Only(x).size, s - {y});
      OnlyProd(x, s - {y});
    }
  }

  lemma {:induction false} OnlyTimes(x: nat, s: seq<nat>)
    ensures Times(Only(x).param, s) == 1
  {
    if s != [] {
      OnlyTimes(x, s[..|s| - 1]);
    }
  }

  lemma SharedBreaks(a: Expr, b: Expr, x: nat)
    requires a.Simplified() && b.Simplified() && a.factor > 0 && b.factor > 0
    requires x in a.dims * b.dims || x in a.divisors * b.divisors
    ensures !IsProduct(Product(a, b), a, b, Only(x))
  {
    var env, p, k := Only(x), Product(a, b), a.factor * b.factor;
    MulPositive(a.factor, b.factor);
    OnlyProd(x, a.dims);
    OnlyProd(x, b.dims);
    OnlyProd(x, p.dims);
    OnlyProd(x, a.divisors);
    OnlyProd(x, b.divisors);
    OnlyProd(x, p.divisors);
    OnlyTimes(x, a.params);
    OnlyTimes(x, b.params);
    OnlyTimes(x, p.params);
    assert Num(a, env) == a.factor * (if x in a.dims then 2 else 1);
    assert Num(b, env) == b.factor * (if x in b.dims then 2 else 1);
    assert Num(p, env) == k * (if x in p.dims then 2 else 1);
    FourFactors(a.factor, if x in a.dims then 2 else 1, b.factor, if x in b.dims then 2 else 1);
  }

  /**
   Multiplication keeps the value for all sizes if and only if the operands share neither
   dimensions nor divisors: sets forget that a dimension occurs twice.
   */
  lemma ProductIffDisjoint(a: Expr, b: Expr)
    requires a.Simplified() && b.Simplified() && a.factor > 0 && b.factor > 0
    ensures (forall env: Env :: env.Positive() ==> IsProduct(Product(a, b), a, b, env))
            <==> (a.dims !! b.dims && a.divisors !! b.divisors)
  {
    var shared := a.dims * b.dims + a.divisors * b.divisors;
    if shared == {} {
      assert forall x :: x in a.dims && x in b.dims ==> x in shared;
      assert forall x :: x in a.divisors && x in b.divisors ==> x in shared;
      forall env: Env | env.Positive() ensures IsProduct(Product(a, b), a, b, env) {
        DisjointProduct(a, b, env);
      }
    } else {
      var x :| x in shared;
      SharedBreaks(a, b, x);
      assert Only(x).Positive();
    }
  }

  // ----- In place -----

  class PartialSize {
    var factor: nat
    var params: seq<nat>
    var dims: set<nat>
    var divisors: set<nat>

    function View(): Expr
      reads this
    {
      Expr(factor, params, dims, divisors)
    }

    constructor (factor: nat, params: seq<nat>)
      requires factor != 0
      ensures View() == Expr(factor, params, {}, {})
    {
      this.factor, this.params, dims, divisors := factor, params, {}, {};
    }

    constructor DimSize(dim: nat)
      ensures View() == Expr(1, [], {dim}, {})
    {
      factor, params, dims, divisors := 1, [], {dim}, {};
    }

    method SimplifyFraction()
      modifies this`dims, this`divisors
      ensures View() == Simplify(old(View()))
    {
      dims, divisors := dims - divisors, divisors - dims;
    }

    method AddDivisors(more: set<nat>)
      modifies this`dims, this`divisors
      ensures View() == Simplify(old(View()).(divisors := old(divisors) + more))
    {
      divisors := divisors + more;
      SimplifyFraction();
    }

    method MulAssign(rhs: PartialSize)
      requires rhs != this
      modifies this
      ensures View() == Product(old(View()), rhs.View())
    {
      factor := factor * rhs.factor;
      params := params + rhs.params;
      dims := dims + rhs.dims;
      divisors := divisors + rhs.divisors;
      SimplifyFraction();
    }
  }
}
