/** Bounds and factors of sizes whose dimensions are not decided yet, and the waves of blocks they imply. */
module SizeBounds {
  import opened Divisibility
  import opened Products
  import MixedRadix

  /** The sizes a dimension may still take. */
  type Domain = nat -> seq<nat>

  /** A size: a constant and parameters multiplied into `factor`, dimensions, and divisors that divide exactly. */
  datatype Size = Size(factor: nat, dims: seq<nat>, divisors: seq<nat>)

  datatype Range = Range(min: nat, max: nat)

  datatype FactorRange = FactorRange(gcd: nat, lcm: nat)

  // ----- Sizes of one dimension -----

  ghost predicate Positive(sizes: seq<nat>) {
    sizes != [] && forall s :: s in sizes ==> s > 0
  }

  lemma HeadOrTail(sizes: seq<nat>)
    requires sizes != []
    ensures sizes[0] in sizes && forall s :: s in sizes <==> s == sizes[0] || s in sizes[1..]
  {
    assert sizes == [sizes[0]] + sizes[1..];
  }

  function MinOf(sizes: seq<nat>): (m: nat)
    requires sizes != []
    ensures m in sizes && forall s :: s in sizes ==> m <= s
  {
    if |sizes| == 1 then sizes[0]
    else
      HeadOrTail(sizes);
      var m := MinOf(sizes[1..]);
      if sizes[0] <= m then sizes[0] else m
  }

  function MaxOf(sizes: seq<nat>): (m: nat)
    requires sizes != []
    ensures m in sizes && forall s :: s in sizes ==> s <= m
  {
    if |sizes| == 1 then sizes[0]
    else
      HeadOrTail(sizes);
      var m := MaxOf(sizes[1..]);
      if sizes[0] >= m then sizes[0] else m
  }

  function GcdOf(sizes: seq<nat>): nat {
    if sizes == [] then 0 else Gcd(sizes[0], GcdOf(sizes[1..]))
  }

  lemma {:induction false} GcdOfDivides(sizes: seq<nat>)
    ensures forall s :: s in sizes ==> Divides(GcdOf(sizes), s)
    ensures Positive(sizes) ==> GcdOf(sizes) > 0
  {
    if sizes != [] {
      HeadOrTail(sizes);
      GcdOfDivides(sizes[1..]);
      GcdDivides(sizes[0], GcdOf(sizes[1..]));
      forall s | s in sizes ensures Divides(GcdOf(sizes), s) {
        if s != sizes[0] {
          assert s in sizes[1..];
          DividesTrans(GcdOf(sizes), GcdOf(sizes[1..]), s);
        }
      }
    }
  }

  function LcmOf(sizes: seq<nat>): (m: nat)
    requires forall s :: s in sizes ==> s > 0
    ensures m > 0
  {
    if sizes == [] then 1
    else
      HeadOrTail(sizes);
      LcmMultiple(sizes[0], LcmOf(sizes[1..]));
      Lcm(sizes[0], LcmOf(sizes[1..]))
  }

  lemma {:induction false} LcmOfMultiple(sizes: seq<nat>)
    requires forall s :: s in sizes ==> s > 0
    ensures forall s :: s in sizes ==> Divides(s, LcmOf(sizes))
  {
    if sizes != [] {
      HeadOrTail(sizes);
      LcmOfMultiple(sizes[1..]);
      LcmMultiple(sizes[0], LcmOf(sizes[1..]));
      forall s | s in sizes ensures Divides(s, LcmOf(sizes)) {
        if s != sizes[0] {
          assert s in sizes[1..];
          DividesTrans(s, LcmOf(sizes[1..]), LcmOf(sizes));
        }
      }
    }
  }

  // ----- Values -----

  /** A choice of sizes in their domains for which the divisions are exact. */
  ghost predicate Choice(domain: Domain, size: Size, c: nat -> nat) {
    && (forall d :: d in size.dims + size.divisors ==> Positive(domain(d)) && c(d) in domain(d))
    && Divides(Times(c, size.divisors), size.factor * Times(c, size.dims))
  }

  ghost function Value(size: Size, c: nat -> nat): nat {
    Div(size.factor * Times(c, size.dims), Times(c, size.divisors))
  }

  // ----- Divisions by undecided sizes -----

  /** Divides by what is shared with each divisor. */
  function Reduce(total: nat, greatest: nat -> nat, divisors: seq<nat>): nat {
    if divisors == [] then total
    else
      var t := Reduce(total, greatest, divisors[..|divisors| - 1]);
      Div(t, Gcd(greatest(divisors[|divisors| - 1]), t))
  }

  /** Divides by each divisor, rounding down. */
  function Shrink(total: nat, least: nat -> nat, divisors: seq<nat>): nat {
    if divisors == [] then total
    else
      Div(Shrink(total, least, divisors[..|divisors| - 1]), least(divisors[|divisors| - 1]))
  }

  /** An exact division by several divisors is made of exact divisions. */
  lemma ExactStep(n: nat, p: nat, t: nat)
    requires n > 0 && p > 0 && t > 0 && Divides(p * t, n)
    ensures Divides(p, n) && n / p > 0 && Divides(t, n / p) && n / (p * t) == n / p / t
  {
    var w: nat :| n == (p * t) * w;
    Assoc(p, t, w);
    QuotientIs(p, n, t * w);
    QuotientIs(t, t * w, w);
    MulPositive(p, t);
    QuotientIs(p * t, n, w);
    MixedRadix.TimesZero(p, t * w);
    Commute(p, t * w);
  }

  lemma {:induction false} ReduceSound(n: nat, total: nat, greatest: nat -> nat, divisors: seq<nat>, c: nat -> nat)
    requires n > 0 && total > 0 && Divides(total, n) && Divides(Times(c, divisors), n)
    requires forall d :: d in divisors ==> c(d) > 0 && greatest(d) > 0 && Divides(c(d), greatest(d))
    ensures Times(c, divisors) > 0 && n / Times(c, divisors) > 0
    ensures Reduce(total, greatest, divisors) > 0 && Divides(Reduce(total, greatest, divisors), n / Times(c, divisors))
  {
    TimesPositive(c, divisors);
    if divisors != [] {
      var k := |divisors| - 1;
      var before, last := divisors[..k], divisors[k];
      TimesPositive(c, before);
      var p := Times(c, before);
      ExactStep(n, p, c(last));
      ReduceSound(n, total, greatest, before, c);
      var t := Reduce(total, greatest, before);
      ReducedFactor(n / p, t, c(last), greatest(last));
      DividesLe(c(last), n / p);
      var w: nat :| n / p == c(last) * w;
      QuotientIs(c(last), n / p, w);
    }
  }

  lemma {:induction false} ShrinkMultiple(n: nat, total: nat, least: nat -> nat, divisors: seq<nat>, c: nat -> nat)
    requires n > 0 && Divides(n, total) && Divides(Times(c, divisors), n)
    requires forall d :: d in divisors ==> c(d) > 0 && Divides(least(d), c(d))
    ensures Times(c, divisors) > 0 && Divides(n / Times(c, divisors), Shrink(total, least, divisors))
  {
    TimesPositive(c, divisors);
    if divisors != [] {
      var k := |divisors| - 1;
      var before, last := divisors[..k], divisors[k];
      TimesPositive(c, before);
      ExactStep(n, Times(c, before), c(last));
      ShrinkMultiple(n, total, least, before, c);
      ReducedMultiple(n / Times(c, before), Shrink(total, least, before), c(last), least(last));
    }
  }

  lemma {:induction false} ShrinkBound(n: nat, total: nat, least: nat -> nat, divisors: seq<nat>, c: nat -> nat)
    requires 0 < n <= total && Divides(Times(c, divisors), n)
    requires forall d :: d in divisors ==> 0 < least(d) <= c(d)
    ensures Times(c, divisors) > 0 && n / Times(c, divisors) <= Shrink(total, least, divisors)
  {
    TimesPositive(c, divisors);
    if divisors != [] {
      var k := |divisors| - 1;
      var before, last := divisors[..k], divisors[k];
      TimesPositive(c, before);
      ExactStep(n, Times(c, before), c(last));
      ShrinkBound(n, total, least, before, c);
      ReducedBound(n / Times(c, before), Shrink(total, least, before), c(last), least(last));
    }
  }

  // ----- The bounds of a size -----

  function Least(domain: Domain): nat -> nat {
    (d: nat) => if domain(d) == [] then 0 else MinOf(domain(d))
  }

  function Greatest(domain: Domain): nat -> nat {
    (d: nat) => GreatestOf(domain, d)
  }

  function GreatestOf(domain: Domain, d: nat): nat {
    if domain(d) == [] then 0 else MaxOf(domain(d))
  }

  function Common(domain: Domain): nat -> nat {
    (d: nat) => GcdOf(domain(d))
  }

  function Multiple(domain: Domain): nat -> nat {
    (d: nat) => if forall s :: s in domain(d) ==> s > 0 then LcmOf(domain(d)) else 0
  }

  function BoundsOf(size: Size, domain: Domain): Range {
    Range(Reduce(size.factor * Times(Least(domain), size.dims), Greatest(domain), size.divisors),
          Shrink(size.factor * Times(Greatest(domain), size.dims), Least(domain), size.divisors))
  }

  function FactorsOf(size: Size, domain: Domain): FactorRange {
    FactorRange(Reduce(size.factor * Times(Common(domain), size.dims), Multiple(domain), size.divisors),
                Shrink(size.factor * Times(Multiple(domain), size.dims), Common(domain), size.divisors))
  }

  /** Multiplies both ends by the sizes of the dimensions. */
  method MultiplyAll(factor: nat, dims: seq<nat>, low: nat -> nat, high: nat -> nat) returns (min: nat, max: nat)
    ensures min == factor * Times(low, dims) && max == factor * Times(high, dims)
  {
    min, max := factor, factor;
    for k := 0 to |dims|
      invariant min == factor * Times(low, dims[..k]) && max == factor * Times(high, dims[..k])
    {
      assert dims[..k + 1][..k] == dims[..k];
      Assoc(factor, Times(low, dims[..k]), low(dims[k]));
      Assoc(factor, Times(high, dims[..k]), high(dims[k]));
      min := min * low(dims[k]);
      max := max * high(dims[k]);
    }
    assert dims[..|dims|] == dims;
  }

  /** Divides both ends by the sizes of the divisors. */
  method DivideAll(min: nat, max: nat, divisors: seq<nat>, low: nat -> nat, high: nat -> nat) returns (min': nat, max': nat)
    ensures min' == Reduce(min, high, divisors) && max' == Shrink(max, low, divisors)
  {
    min', max' := min, max;
    for k := 0 to |divisors|
      invariant min' == Reduce(min, high, divisors[..k]) && max' == Shrink(max, low, divisors[..k])
    {
      assert divisors[..k + 1][..k] == divisors[..k];
      min' := Div(min', Gcd(high(divisors[k]), min'));
      max' := Div(max', low(divisors[k]));
    }
    assert divisors[..|divisors|] == divisors;
  }

  method Bounds(size: Size, domain: Domain) returns (range: Range)
    ensures range == BoundsOf(size, domain)
  {
    var min, max := MultiplyAll(size.factor, size.dims, Least(domain), Greatest(domain));
    min, max := DivideAll(min, max, size.divisors, Least(domain), Greatest(domain));
    range := Range(min, max);
  }

  method Factors(size: Size, domain: Domain) returns (range: FactorRange)
    ensures range == FactorsOf(size, domain)
  {
    var gcd, lcm := MultiplyAll(size.factor, size.dims, Common(domain), Multiple(domain));
    gcd, lcm := DivideAll(gcd, lcm, size.divisors, Common(domain), Multiple(domain));
    range := FactorRange(gcd, lcm);
  }

  // ----- What they bound -----

  lemma Scaled(size: Size, f: nat -> nat, g: nat -> nat)
    requires forall d :: d in size.dims ==> Divides(f(d), g(d))
    ensures Divides(size.factor * Times(f, size.dims), size.factor * Times(g, size.dims))
  {
    TimesDivides(f, g, size.dims);
    DividesSelf(size.factor);
    DividesProduct(size.factor, size.factor, Times(f, size.dims), Times(g, size.dims));
  }

  lemma Dividend(size: Size, f: nat -> nat)
    requires size.factor > 0 && forall d :: d in size.dims ==> f(d) > 0
    ensures size.factor * Times(f, size.dims) > 0
  {
    TimesPositive(f, size.dims);
    MulPositive(size.factor, Times(f, size.dims));
  }

  lemma FactorsOfDims(size: Size, domain: Domain, c: nat -> nat)
    requires Choice(domain, size, c)
    ensures forall d :: d in size.dims + size.divisors ==> Common(domain)(d) > 0 && Multiple(domain)(d) > 0 && c(d) > 0
    ensures forall d :: d in size.dims + size.divisors ==> Divides(Common(domain)(d), c(d)) && Divides(c(d), Multiple(domain)(d))
  {
    forall d | d in size.dims + size.divisors
      ensures Common(domain)(d) > 0 && Multiple(domain)(d) > 0 && c(d) > 0
      ensures Divides(Common(domain)(d), c(d)) && Divides(c(d), Multiple(domain)(d))
    {
      GcdOfDivides(domain(d));
      LcmOfMultiple(domain(d));
    }
  }

  /** Factors of the chosen sizes give a factor of the value, which stays positive. */
  lemma LowerSound(size: Size, low: nat -> nat, high: nat -> nat, c: nat -> nat)
    requires size.factor > 0 && Divides(Times(c, size.divisors), size.factor * Times(c, size.dims))
    requires forall d :: d in size.dims ==> c(d) > 0 && low(d) > 0 && Divides(low(d), c(d))
    requires forall d :: d in size.divisors ==> c(d) > 0 && high(d) > 0 && Divides(c(d), high(d))
    ensures Value(size, c) > 0 && Reduce(size.factor * Times(low, size.dims), high, size.divisors) > 0
    ensures Divides(Reduce(size.factor * Times(low, size.dims), high, size.divisors), Value(size, c))
  {
    Dividend(size, c);
    Dividend(size, low);
    Scaled(size, low, c);
    ReduceSound(size.factor * Times(c, size.dims), size.factor * Times(low, size.dims), high, size.divisors, c);
  }

  lemma UpperSound(size: Size, low: nat -> nat, high: nat -> nat, c: nat -> nat)
    requires size.factor > 0 && Divides(Times(c, size.divisors), size.factor * Times(c, size.dims))
    requires forall d :: d in size.dims ==> c(d) > 0 && Divides(c(d), high(d))
    requires forall d :: d in size.divisors ==> c(d) > 0 && Divides(low(d), c(d))
    ensures Divides(Value(size, c), Shrink(size.factor * Times(high, size.dims), low, size.divisors))
  {
    Dividend(size, c);
    Scaled(size, c, high);
    ShrinkMultiple(size.factor * Times(c, size.dims), size.factor * Times(high, size.dims), low, size.divisors, c);
  }

  /** Whatever sizes are chosen, the value is a multiple of `gcd` and divides `lcm`. */
  lemma FactorsSound(size: Size, domain: Domain, c: nat -> nat)
    requires size.factor > 0 && Choice(domain, size, c)
    ensures Value(size, c) > 0
    ensures Divides(FactorsOf(size, domain).gcd, Value(size, c)) && Divides(Value(size, c), FactorsOf(size, domain).lcm)
  {
    FactorsOfDims(size, domain, c);
    AllDims(size);
    LowerSound(size, Common(domain), Multiple(domain), c);
    UpperSound(size, Common(domain), Multiple(domain), c);
  }

  lemma AllDims(size: Size)
    ensures forall d :: d in size.dims ==> d in size.dims + size.divisors
    ensures forall d :: d in size.divisors ==> d in size.dims + size.divisors
  {
  }

  /** Whatever sizes are chosen, the value is at most `max`. */
  lemma MaxSound(size: Size, domain: Domain, c: nat -> nat)
    requires size.factor > 0 && Choice(domain, size, c)
    ensures Value(size, c) <= BoundsOf(size, domain).max
  {
    AllDims(size);
    assert forall d :: d in size.dims + size.divisors ==> 0 < Least(domain)(d) <= c(d) <= Greatest(domain)(d);
    Dividend(size, c);
    TimesMonotone(c, Greatest(domain), size.dims);
    ProductMonotone(size.factor, size.factor, Times(c, size.dims), Times(Greatest(domain), size.dims));
    ShrinkBound(size.factor * Times(c, size.dims), size.factor * Times(Greatest(domain), size.dims), Least(domain), size.divisors, c);
  }

  /** The least size of a factor divides all its sizes, the greatest size of a divisor is a multiple of all of them. */
  ghost predicate Regular(domain: Domain, size: Size) {
    && (forall d, s :: d in size.dims && s in domain(d) ==> Divides(Least(domain)(d), s))
    && (forall d, s :: d in size.divisors && s in domain(d) ==> Divides(s, Greatest(domain)(d)))
  }

  /** With regular domains, the value is at least `min`, of which it is a multiple. */
  lemma MinSound(size: Size, domain: Domain, c: nat -> nat)
    requires size.factor > 0 && Choice(domain, size, c) && Regular(domain, size)
    ensures Divides(BoundsOf(size, domain).min, Value(size, c)) && 0 < BoundsOf(size, domain).min <= Value(size, c)
  {
    AllDims(size);
    LowerSound(size, Least(domain), Greatest(domain), c);
    DividesLe(BoundsOf(size, domain).min, Value(size, c));
  }
}
