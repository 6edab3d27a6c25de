/** What the bounds and factors of a size are, and that they are its value once its sizes are known. */
module FixedSizes {
  import opened Divisibility
  import opened Products
  import opened SizeBounds
  import SE = SizeExactness
  import MixedRadix

  // ----- The upper ends -----

  lemma DivDiv(n: nat, a: nat, b: nat)
    requires a > 0 && b > 0
    ensures a * b > 0 && n / a / b == n / (a * b)
  {
    var q, r := n / a, n % a;
    var p, s := q / b, q % b;
    MulPositive(a, b);
    MixedRadix.MulGap(s, b, a);
    Parts(n, a, b, q, r, p, s);
    Commute(b, a);
    MixedRadix.DivMod(p, s * a + r, b * a);
  }

  lemma Parts(n: nat, a: nat, b: nat, q: nat, r: nat, p: nat, s: nat)
    requires n == q * a + r && q == p * b + s
    ensures n == p * (b * a) + (s * a + r)
  {
    Assoc(p, b, a);
    Commute(a, q);
    Distr(a, p * b, s);
    Commute(a, p * b);
    Commute(a, s);
  }

  /** Dividing by one divisor after the other, rounding down, is dividing by their product. */
  lemma {:induction false} ShrinkIs(total: nat, f: nat -> nat, divisors: seq<nat>)
    requires forall d :: d in divisors ==> f(d) > 0
    ensures Times(f, divisors) > 0 && Shrink(total, f, divisors) == total / Times(f, divisors)
  {
    TimesPositive(f, divisors);
    if divisors != [] {
      var k := |divisors| - 1;
      ShrinkIs(total, f, divisors[..k]);
      DivDiv(total, Times(f, divisors[..k]), f(divisors[k]));
    }
  }

  /** The sizes of the dimensions and divisors are known to be positive. */
  ghost predicate AllPositive(size: Size, domain: Domain) {
    forall d :: d in size.dims + size.divisors ==> Positive(domain(d))
  }

  lemma EndsPositive(size: Size, domain: Domain)
    requires AllPositive(size, domain)
    ensures forall d :: d in size.dims + size.divisors ==>
              Least(domain)(d) > 0 && Greatest(domain)(d) > 0 && Common(domain)(d) > 0 && Multiple(domain)(d) > 0
  {
    forall d | d in size.dims + size.divisors ensures Common(domain)(d) > 0 {
      GcdOfDivides(domain(d));
    }
  }

  /** `q` is `n / p`, rounded down. */
  ghost predicate Rounded(q: nat, n: nat, p: nat) {
    q * p <= n < (q + 1) * p
  }

  /** `q` is `n` without what it shares with `p`. */
  ghost predicate Unshared(q: nat, n: nat, p: nat) {
    q * Gcd(p, n) == n
  }

  lemma Quotient(n: nat, p: nat)
    requires p > 0
    ensures Rounded(n / p, n, p)
  {
    MixedRadix.DivMod(n / p, n % p, p);
    Commute(n / p + 1, p);
    Distr(p, n / p, 1);
    Commute(n / p, p);
  }

  lemma UpperEnd(n: nat, f: nat -> nat, divisors: seq<nat>)
    requires forall d :: d in divisors ==> f(d) > 0
    ensures Rounded(Shrink(n, f, divisors), n, Times(f, divisors))
  {
    ShrinkIs(n, f, divisors);
    Quotient(n, Times(f, divisors));
  }

  lemma LowerEnd(n: nat, f: nat -> nat, divisors: seq<nat>)
    requires n > 0 && forall d :: d in divisors ==> f(d) > 0
    ensures Unshared(Reduce(n, f, divisors), n, Times(f, divisors))
  {
    SE.ReduceIs(n, f, divisors);
  }

  function Dividing(size: Size, f: nat -> nat): nat {
    size.factor * Times(f, size.dims)
  }

  /** The upper ends are the greatest dividends divided by the least divisors, rounded down. */
  lemma UpperEnds(size: Size, domain: Domain)
    requires AllPositive(size, domain)
    ensures Rounded(BoundsOf(size, domain).max, Dividing(size, Greatest(domain)), Times(Least(domain), size.divisors))
    ensures Rounded(FactorsOf(size, domain).lcm, Dividing(size, Multiple(domain)), Times(Common(domain), size.divisors))
  {
    EndsPositive(size, domain);
    AllDims(size);
    UpperEnd(Dividing(size, Greatest(domain)), Least(domain), size.divisors);
    UpperEnd(Dividing(size, Multiple(domain)), Common(domain), size.divisors);
  }

  /** The lower ends are the least dividends without what they share with the greatest divisors. */
  lemma LowerEnds(size: Size, domain: Domain)
    requires size.factor > 0 && AllPositive(size, domain)
    ensures Unshared(BoundsOf(size, domain).min, Dividing(size, Least(domain)), Times(Greatest(domain), size.divisors))
    ensures Unshared(FactorsOf(size, domain).gcd, Dividing(size, Common(domain)), Times(Multiple(domain), size.divisors))
  {
    EndsPositive(size, domain);
    AllDims(size);
    Dividend(size, Least(domain));
    Dividend(size, Common(domain));
    LowerEnd(Dividing(size, Least(domain)), Greatest(domain), size.divisors);
    LowerEnd(Dividing(size, Common(domain)), Multiple(domain), size.divisors);
  }

  // ----- Greatest divisor and least multiple of the sizes of a dimension -----

  /** What divides every size divides their common divisor. */
  lemma {:induction false} GcdOfGreatest(sizes: seq<nat>, x: nat)
    requires forall s :: s in sizes ==> Divides(x, s)
    ensures Divides(x, GcdOf(sizes))
  {
    if sizes == [] {
      assert 0 == x * 0;
    } else {
      HeadOrTail(sizes);
      GcdOfGreatest(sizes[1..], x);
      GcdGreatest(sizes[0], GcdOf(sizes[1..]), x);
    }
  }

  /** Every common multiple of the sizes is one of their least common multiple. */
  lemma {:induction false} LcmOfLeast(sizes: seq<nat>, m: nat)
    requires forall s :: s in sizes ==> s > 0 && Divides(s, m)
    ensures Divides(LcmOf(sizes), m)
  {
    if sizes == [] {
      assert m == 1 * m;
    } else {
      HeadOrTail(sizes);
      LcmOfLeast(sizes[1..], m);
      LcmLeast(sizes[0], LcmOf(sizes[1..]), m);
    }
  }

  // ----- Sizes that are known -----

  lemma OneSize(s: nat)
    requires s > 0
    ensures MinOf([s]) == s && MaxOf([s]) == s && GcdOf([s]) == s && LcmOf([s]) == s
  {
    var sizes := [s];
    assert s in sizes && forall t :: t in sizes ==> t == s;
    DividesSelf(s);
    GcdOfDivides(sizes);
    GcdOfGreatest(sizes, s);
    DividesBoth(s, GcdOf(sizes));
    LcmOfMultiple(sizes);
    LcmOfLeast(sizes, s);
    DividesBoth(s, LcmOf(sizes));
  }

  ghost predicate Known(size: Size, domain: Domain, c: nat -> nat) {
    forall d :: d in size.dims + size.divisors ==> domain(d) == [c(d)]
  }

  lemma KnownEnds(size: Size, domain: Domain, c: nat -> nat)
    requires Known(size, domain, c) && Choice(domain, size, c)
    ensures forall d :: d in size.dims + size.divisors ==>
              Least(domain)(d) == c(d) && Greatest(domain)(d) == c(d) && Common(domain)(d) == c(d) && Multiple(domain)(d) == c(d)
  {
    forall d | d in size.dims + size.divisors
      ensures Least(domain)(d) == c(d) && Greatest(domain)(d) == c(d) && Common(domain)(d) == c(d) && Multiple(domain)(d) == c(d)
    {
      assert c(d) in domain(d);
      OneSize(c(d));
    }
  }

  /** Reducing by an exact divisor divides by it. */
  lemma ReduceExact(n: nat, f: nat -> nat, divisors: seq<nat>)
    requires n > 0 && (forall d :: d in divisors ==> f(d) > 0) && Divides(Times(f, divisors), n)
    ensures Times(f, divisors) > 0 && Reduce(n, f, divisors) == n / Times(f, divisors)
  {
    var p := Times(f, divisors);
    SE.ReduceIs(n, f, divisors);
    DividesSelf(p);
    GcdGreatest(p, n, p);
    GcdDivides(p, n);
    DividesBoth(Gcd(p, n), p);
    Commute(Reduce(n, f, divisors), p);
    QuotientIs(p, n, Reduce(n, f, divisors));
  }

  lemma KnownQuotient(size: Size, c: nat -> nat, low: nat -> nat, high: nat -> nat)
    requires size.factor > 0 && Divides(Times(c, size.divisors), size.factor * Times(c, size.dims))
    requires forall d :: d in size.dims + size.divisors ==> c(d) > 0 && low(d) == c(d) && high(d) == c(d)
    ensures Reduce(size.factor * Times(low, size.dims), high, size.divisors) == Value(size, c)
    ensures Shrink(size.factor * Times(high, size.dims), low, size.divisors) == Value(size, c)
  {
    AllDims(size);
    SE.SameTimes(low, c, size.dims);
    SE.SameTimes(high, c, size.dims);
    SE.SameTimes(low, c, size.divisors);
    SE.SameTimes(high, c, size.divisors);
    Dividend(size, c);
    var n := size.factor * Times(c, size.dims);
    ReduceExact(n, high, size.divisors);
    ShrinkIs(n, low, size.divisors);
  }

  /** When every size is known and the division is exact, both ends are the value. */
  lemma KnownSize(size: Size, domain: Domain, c: nat -> nat)
    requires size.factor > 0 && Choice(domain, size, c) && Known(size, domain, c)
    ensures BoundsOf(size, domain) == Range(Value(size, c), Value(size, c))
    ensures FactorsOf(size, domain) == FactorRange(Value(size, c), Value(size, c))
  {
    KnownEnds(size, domain, c);
    assert forall d :: d in size.dims + size.divisors ==> c(d) in domain(d);
    KnownQuotient(size, c, Least(domain), Greatest(domain));
    KnownQuotient(size, c, Common(domain), Multiple(domain));
  }
}
