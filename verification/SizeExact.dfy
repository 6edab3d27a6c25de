/** When the least value computed for a size really bounds the values the size can take. */
module SizeExactness {
  import opened Divisibility
  import opened Products
  import opened SizeBounds
  import MixedRadix

  // ----- The reduced total -----

  /** Reducing by all the divisors is reducing by their product: the result divides what the product turns into multiples of the total. */
  lemma {:induction false} ReduceDivides(total: nat, f: nat -> nat, divisors: seq<nat>, x: nat)
    requires total > 0 && forall d :: d in divisors ==> f(d) > 0
    ensures Reduce(total, f, divisors) > 0
    ensures Divides(Reduce(total, f, divisors), x) <==> Divides(total, x * Times(f, divisors))
    decreases |divisors|
  {
    if divisors != [] {
      var k := |divisors| - 1;
      var before, last := divisors[..k], f(divisors[k]);
      ReduceDivides(total, f, before, x * last);
      var t := Reduce(total, f, before);
      var g, a', t', u, v := GcdParts(last, t);
      ReducedDivides(t, last, x);
      Assoc(x, last, Times(f, before));
      Commute(last, Times(f, before));
    }
  }

  lemma ReduceIs(total: nat, f: nat -> nat, divisors: seq<nat>)
    requires total > 0 && forall d :: d in divisors ==> f(d) > 0
    ensures Times(f, divisors) > 0 && Gcd(Times(f, divisors), total) > 0
    ensures Reduce(total, f, divisors) * Gcd(Times(f, divisors), total) == total
  {
    TimesPositive(f, divisors);
    var p, r := Times(f, divisors), Reduce(total, f, divisors);
    var g, p', q, u, v := GcdParts(p, total);
    DividesSelf(r);
    DividesSelf(q);
    ReduceDivides(total, f, divisors, r);
    ReducedDivides(total, p, r);
    ReduceDivides(total, f, divisors, q);
    ReducedDivides(total, p, q);
    DividesBoth(r, q);
    Commute(g, q);
  }

  // ----- Sound bounds -----

  /** Sizes chosen in their domains, whatever the division gives. */
  ghost predicate Picked(domain: Domain, ds: seq<nat>, c: nat -> nat) {
    forall d :: d in ds ==> Positive(domain(d)) && c(d) in domain(d)
  }

  ghost predicate SoundAt(domain: Domain, size: Size, c: nat -> nat) {
    Choice(domain, size, c) ==> BoundsOf(size, domain).min <= Value(size, c)
  }

  /** Whatever the constant and the sizes chosen, the least value is a lower bound. */
  ghost predicate Sound(domain: Domain, dims: seq<nat>, divisors: seq<nat>) {
    forall n: nat, c: nat -> nat :: n > 0 ==> SoundAt(domain, Size(n, dims, divisors), c)
  }

  /** The least constant that makes the division exact for these sizes. */
  function LeastFactor(dims: seq<nat>, divisors: seq<nat>, c: nat -> nat): nat {
    Div(Times(c, divisors), Gcd(Times(c, dims), Times(c, divisors)))
  }

  /** The comparison that decides one choice: least sizes against chosen ones, at the least constant. */
  predicate LeastFactorOk(domain: Domain, dims: seq<nat>, divisors: seq<nat>, c: nat -> nat) {
    var least, most := Times(Least(domain), dims), Times(Greatest(domain), divisors);
    least * Times(c, divisors) <= Times(c, dims) * Gcd(most, LeastFactor(dims, divisors, c) * least)
  }

  lemma PickedPositive(domain: Domain, ds: seq<nat>, c: nat -> nat)
    requires Picked(domain, ds, c)
    ensures forall d :: d in ds ==> c(d) > 0 && Least(domain)(d) > 0 && Greatest(domain)(d) > 0
    ensures Times(c, ds) > 0 && Times(Least(domain), ds) > 0 && Times(Greatest(domain), ds) > 0
  {
    TimesPositive(c, ds);
    TimesPositive(Least(domain), ds);
    TimesPositive(Greatest(domain), ds);
  }

  lemma PickedParts(domain: Domain, dims: seq<nat>, divisors: seq<nat>, c: nat -> nat)
    ensures Picked(domain, dims + divisors, c) <==> Picked(domain, dims, c) && Picked(domain, divisors, c)
  {
    AllDims(Size(0, dims, divisors));
  }

  /** Two exact quotients compare as the products across do. */
  lemma CompareQuotients(r: nat, g: nat, a: nat, v: nat, t: nat, b: nat, n: nat)
    requires g > 0 && t > 0 && n > 0 && r * g == n * a && v * t == n * b
    ensures r <= v <==> a * t <= b * g
  {
    MulPositive(g, t);
    TimesLe(r, v, g * t);
    Assoc(r, g, t);
    Assoc(n, a, t);
    Commute(g, t);
    Assoc(v, t, g);
    Assoc(n, b, g);
    TimesLe(a * t, b * g, n);
    Commute(n, a * t);
    Commute(n, b * g);
  }

  /** For one constant and one choice, the bound is sound exactly when a product of the greatest sizes is large enough. */
  lemma SoundAtIff(domain: Domain, n: nat, dims: seq<nat>, divisors: seq<nat>, c: nat -> nat)
    requires n > 0 && Choice(domain, Size(n, dims, divisors), c)
    ensures
      var size := Size(n, dims, divisors);
      var least, most := Times(Least(domain), dims), Times(Greatest(domain), divisors);
      BoundsOf(size, domain).min <= Value(size, c) <==>
      least * Times(c, divisors) <= Times(c, dims) * Gcd(most, n * least)
  {
    PickedParts(domain, dims, divisors, c);
    PickedPositive(domain, dims, c);
    PickedPositive(domain, divisors, c);
    var size := Size(n, dims, divisors);
    var least, most, t := Times(Least(domain), dims), Times(Greatest(domain), divisors), Times(c, divisors);
    MulPositive(n, least);
    ReduceIs(n * least, Greatest(domain), divisors);
    var v: nat :| n * Times(c, dims) == t * v;
    QuotientIs(t, n * Times(c, dims), v);
    Commute(t, v);
    CompareQuotients(BoundsOf(size, domain).min, Gcd(most, n * least), least, v, t, Times(c, dims), n);
  }

  /** The constants that make the division exact are the multiples of the least one. */
  lemma ExactFactors(dims: seq<nat>, divisors: seq<nat>, c: nat -> nat, n: nat)
    requires Times(c, dims) > 0 && Times(c, divisors) > 0
    ensures LeastFactor(dims, divisors, c) > 0
    ensures Divides(Times(c, divisors), n * Times(c, dims)) <==> Divides(LeastFactor(dims, divisors, c), n)
  {
    var g, a', m', x, y := GcdParts(Times(c, dims), Times(c, divisors));
    ReducedDivides(Times(c, divisors), Times(c, dims), n);
  }

  /** A greater constant only makes the bound smaller with regard to the value. */
  lemma LeastFactorDecides(domain: Domain, n: nat, dims: seq<nat>, divisors: seq<nat>, c: nat -> nat)
    requires n > 0 && Choice(domain, Size(n, dims, divisors), c) && LeastFactorOk(domain, dims, divisors, c)
    ensures BoundsOf(Size(n, dims, divisors), domain).min <= Value(Size(n, dims, divisors), c)
  {
    PickedParts(domain, dims, divisors, c);
    PickedPositive(domain, dims, c);
    PickedPositive(domain, divisors, c);
    var n0, least, most := LeastFactor(dims, divisors, c), Times(Least(domain), dims), Times(Greatest(domain), divisors);
    ExactFactors(dims, divisors, c, n);
    DividesSelf(least);
    DividesProduct(n0, n, least, least);
    GcdMonotone(most, n0 * least, n * least);
    Commute(Times(c, dims), Gcd(most, n0 * least));
    Commute(Times(c, dims), Gcd(most, n * least));
    MixedRadix.MulMonotone(Gcd(most, n0 * least), Gcd(most, n * least), Times(c, dims));
    SoundAtIff(domain, n, dims, divisors, c);
  }

  lemma GcdMonotone(a: nat, b: nat, b': nat)
    requires a > 0 && Divides(b, b')
    ensures Gcd(a, b) <= Gcd(a, b')
  {
    GcdDivides(a, b);
    GcdDivides(a, b');
    DividesTrans(Gcd(a, b), b, b');
    GcdGreatest(a, b', Gcd(a, b));
    DividesLe(Gcd(a, b), Gcd(a, b'));
  }

  /**
   The least value of a size bounds all its values, whatever the constant, if and only if every
   choice of sizes passes one comparison, at the least constant for which its division is exact.
   */
  lemma MinSoundIff(domain: Domain, dims: seq<nat>, divisors: seq<nat>)
    ensures Sound(domain, dims, divisors) <==>
            forall c: nat -> nat :: Picked(domain, dims + divisors, c) ==> LeastFactorOk(domain, dims, divisors, c)
  {
    if Sound(domain, dims, divisors) {
      forall c: nat -> nat | Picked(domain, dims + divisors, c) ensures LeastFactorOk(domain, dims, divisors, c) {
        PickedParts(domain, dims, divisors, c);
        PickedPositive(domain, dims, c);
        PickedPositive(domain, divisors, c);
        var n0 := LeastFactor(dims, divisors, c);
        ExactFactors(dims, divisors, c, n0);
        DividesSelf(n0);
        assert Choice(domain, Size(n0, dims, divisors), c);
        assert SoundAt(domain, Size(n0, dims, divisors), c);
        SoundAtIff(domain, n0, dims, divisors, c);
      }
    }
    if forall c: nat -> nat :: Picked(domain, dims + divisors, c) ==> LeastFactorOk(domain, dims, divisors, c) {
      forall n: nat, c: nat -> nat | n > 0 ensures SoundAt(domain, Size(n, dims, divisors), c) {
        if Choice(domain, Size(n, dims, divisors), c) {
          assert Picked(domain, dims + divisors, c);
          LeastFactorDecides(domain, n, dims, divisors, c);
        }
      }
    }
  }

  /** Regular domains pass the comparison for every choice. */
  lemma RegularIsOk(domain: Domain, dims: seq<nat>, divisors: seq<nat>, c: nat -> nat)
    requires Picked(domain, dims + divisors, c) && Regular(domain, Size(1, dims, divisors))
    ensures LeastFactorOk(domain, dims, divisors, c)
  {
    PickedParts(domain, dims, divisors, c);
    PickedPositive(domain, dims, c);
    PickedPositive(domain, divisors, c);
    var n0 := LeastFactor(dims, divisors, c);
    ExactFactors(dims, divisors, c, n0);
    DividesSelf(n0);
    assert Regular(domain, Size(n0, dims, divisors));
    MinSound(Size(n0, dims, divisors), domain, c);
    SoundAtIff(domain, n0, dims, divisors, c);
  }

  // ----- Constants -----

  ghost predicate Distinct(ds: seq<nat>) {
    forall i, j :: 0 <= i < j < |ds| ==> ds[i] != ds[j]
  }

  /** The sizes of a divisor all divide the greatest of them. */
  ghost predicate RegularDivisor(domain: Domain, d: nat) {
    forall s :: s in domain(d) ==> Divides(s, Greatest(domain)(d))
  }

  /** The chosen sizes multiply to no more than what the greatest ones share with `n`. */
  ghost predicate Shares(n: nat, ds: seq<nat>, domain: Domain, c: nat -> nat) {
    Choice(domain, Size(n, [], ds), c) ==> Times(c, ds) <= Gcd(Times(Greatest(domain), ds), n)
  }

  lemma ConstantSoundAt(n: nat, ds: seq<nat>, domain: Domain, c: nat -> nat)
    requires n > 0
    ensures SoundAt(domain, Size(n, [], ds), c) <==> Shares(n, ds, domain, c)
  {
    if Choice(domain, Size(n, [], ds), c) {
      assert Times(Least(domain), []) == 1 == Times(c, []);
      SoundAtIff(domain, n, [], ds, c);
    }
  }

  /** For one constant, the bound is sound exactly when no chosen product exceeds what the greatest sizes share with the constant. */
  lemma MinExactly(n: nat, ds: seq<nat>, domain: Domain)
    requires n > 0
    ensures (forall c: nat -> nat :: SoundAt(domain, Size(n, [], ds), c)) <==> (forall c: nat -> nat :: Shares(n, ds, domain, c))
  {
    forall c: nat -> nat ensures SoundAt(domain, Size(n, [], ds), c) <==> Shares(n, ds, domain, c) {
      ConstantSoundAt(n, ds, domain, c);
    }
  }

  /** One divisor takes size `s`, the others their greatest size. */
  function Deviation(domain: Domain, d: nat, s: nat): nat -> nat {
    (e: nat) => DeviationAt(domain, d, s, e)
  }

  function DeviationAt(domain: Domain, d: nat, s: nat, e: nat): nat {
    if e == d then s else GreatestOf(domain, e)
  }

  lemma DeviationIs(domain: Domain, d: nat, s: nat, e: nat)
    ensures Deviation(domain, d, s)(e) == if e == d then s else Greatest(domain)(e)
  {
  }

  function Either(b: bool, x: nat, y: nat): nat {
    if b then x else y
  }

  lemma {:induction false} DeviationTimes(domain: Domain, ds: seq<nat>, d: nat, s: nat) returns (others: nat)
    requires Distinct(ds) && d in ds && forall e :: e in ds ==> Positive(domain(e))
    ensures others > 0
    ensures Times(Deviation(domain, d, s), ds) == s * others && Times(Greatest(domain), ds) == Greatest(domain)(d) * others
    decreases |ds|
  {
    var k := |ds| - 1;
    var before, last := ds[..k], ds[k];
    var f, g := Deviation(domain, d, s), Greatest(domain);
    assert last in ds && forall e :: e in before ==> e in ds;
    if last == d {
      others := LastDeviates(domain, before, d, s);
    } else {
      assert d in before;
      var inner := DeviationTimes(domain, before, d, s);
      others := inner * g(last);
      DeviationIs(domain, d, s, last);
      assert Positive(domain(last));
      MulPositive(inner, g(last));
      Assoc(s, inner, g(last));
      Assoc(g(d), inner, g(last));
    }
  }

  lemma LastDeviates(domain: Domain, before: seq<nat>, d: nat, s: nat) returns (others: nat)
    requires d !in before && forall e :: e in before ==> Positive(domain(e))
    ensures others > 0
    ensures Times(Deviation(domain, d, s), before) * s == s * others
    ensures Times(Greatest(domain), before) * Greatest(domain)(d) == Greatest(domain)(d) * others
  {
    SameTimes(Deviation(domain, d, s), Greatest(domain), before);
    TimesPositive(Greatest(domain), before);
    others := Times(Greatest(domain), before);
    Commute(others, s);
    Commute(others, Greatest(domain)(d));
  }

  lemma {:induction false} SameTimes(f: nat -> nat, g: nat -> nat, ds: seq<nat>)
    requires forall d :: d in ds ==> f(d) == g(d)
    ensures Times(f, ds) == Times(g, ds)
  {
    if ds != [] {
      SameTimes(f, g, ds[..|ds| - 1]);
    }
  }

  /** If the bound is sound at the product of the chosen sizes, this product divides that of the greatest sizes. */
  lemma SoundDivides(domain: Domain, ds: seq<nat>, c: nat -> nat)
    requires Picked(domain, ds, c) && Sound(domain, [], ds)
    ensures Divides(Times(c, ds), Times(Greatest(domain), ds))
  {
    PickedPositive(domain, ds, c);
    var t := Times(c, ds);
    assert [] + ds == ds;
    DividesSelf(t);
    assert t * 1 == t;
    assert Choice(domain, Size(t, [], ds), c);
    assert SoundAt(domain, Size(t, [], ds), c);
    QuotientIs(t, t, 1);
    ReduceDivides(t, Greatest(domain), ds, 1);
    assert Reduce(t, Greatest(domain), ds) == 1;
    DividesSelf(1);
  }

  lemma DeviationPicked(domain: Domain, ds: seq<nat>, d: nat, s: nat)
    requires (forall e :: e in ds ==> Positive(domain(e))) && s in domain(d)
    ensures Picked(domain, ds, Deviation(domain, d, s))
  {
    forall e | e in ds ensures Deviation(domain, d, s)(e) in domain(e) {
      DeviationIs(domain, d, s, e);
      assert Positive(domain(e));
    }
  }

  /** A size that does not divide the greatest one of its divisor breaks the bound. */
  lemma RegularNecessary(domain: Domain, ds: seq<nat>, d: nat, s: nat)
    requires Distinct(ds) && (forall d :: d in ds ==> Positive(domain(d))) && Sound(domain, [], ds)
    requires d in ds && s in domain(d)
    ensures Divides(s, Greatest(domain)(d))
  {
    DeviationPicked(domain, ds, d, s);
    SoundDivides(domain, ds, Deviation(domain, d, s));
    var others := DeviationTimes(domain, ds, d, s);
    Commute(s, others);
    Commute(Greatest(domain)(d), others);
    CancelShared(others, s, Greatest(domain)(d));
  }

  lemma RegularSufficient(domain: Domain, ds: seq<nat>)
    requires forall d :: d in ds ==> RegularDivisor(domain, d)
    ensures Sound(domain, [], ds)
  {
    forall n: nat, c: nat -> nat | n > 0 ensures SoundAt(domain, Size(n, [], ds), c) {
      if Choice(domain, Size(n, [], ds), c) {
        assert Regular(domain, Size(n, [], ds));
        MinSound(Size(n, [], ds), domain, c);
      }
    }
  }

  /** Over distinct divisors, the least value bounds the quotients of every constant if and only if every size of a divisor divides its greatest one. */
  lemma ConstantMinIff(domain: Domain, ds: seq<nat>)
    requires Distinct(ds) && forall d :: d in ds ==> Positive(domain(d))
    ensures Sound(domain, [], ds) <==> forall d :: d in ds ==> RegularDivisor(domain, d)
  {
    if Sound(domain, [], ds) {
      forall d, s | d in ds && s in domain(d) ensures Divides(s, Greatest(domain)(d)) {
        RegularNecessary(domain, ds, d, s);
      }
    }
    if forall d :: d in ds ==> RegularDivisor(domain, d) {
      RegularSufficient(domain, ds);
    }
  }

  // ----- Dimensions -----

  /** Sizes of `c` for the dimensions, the greatest ones for the divisors. */
  function WithGreatest(domain: Domain, divisors: seq<nat>, c: nat -> nat): nat -> nat {
    (d: nat) => Either(d in divisors, GreatestOf(domain, d), c(d))
  }

  /** With regular divisors, the least sizes and what the chosen sizes share with the greatest divisors have a small common multiple. */
  predicate DimsOk(domain: Domain, dims: seq<nat>, divisors: seq<nat>, c: nat -> nat) {
    var least, shared := Times(Least(domain), dims), Gcd(Times(Greatest(domain), divisors), Times(c, dims));
    least > 0 && shared > 0 && Lcm(least, shared) <= Times(c, dims)
  }

  lemma DimsNecessary(domain: Domain, dims: seq<nat>, divisors: seq<nat>, c: nat -> nat)
    requires Picked(domain, dims + divisors, c) && (forall d :: d in dims ==> d !in divisors) && Sound(domain, dims, divisors)
    ensures DimsOk(domain, dims, divisors, c)
  {
    PickedParts(domain, dims, divisors, c);
    PickedPositive(domain, dims, c);
    PickedPositive(domain, divisors, c);
    var c' := WithGreatest(domain, divisors, c);
    SameTimes(c', c, dims);
    SameTimes(c', Greatest(domain), divisors);
    assert Picked(domain, dims + divisors, c');
    MinSoundIff(domain, dims, divisors);
    assert LeastFactorOk(domain, dims, divisors, c');
    var least, most, chosen := Times(Least(domain), dims), Times(Greatest(domain), divisors), Times(c, dims);
    var n0 := LeastFactor(dims, divisors, c');
    ExactFactors(dims, divisors, c', n0);
    GcdCommutes(chosen, most);
    SmallMultiple(least, most, chosen, n0);
  }

  /** The reduced total at the least constant, scaled to a common multiple. */
  lemma ReducedMultipleOf(least: nat, most: nat, n0: nat, g: nat) returns (r: nat)
    requires least > 0 && most > 0 && n0 > 0 && most == g * n0
    ensures Gcd(most, n0 * least) > 0 && n0 * least == Gcd(most, n0 * least) * r && Divides(least, r * g) && r > 0
  {
    MulPositive(n0, least);
    var h, a', q, u, v := GcdParts(most, n0 * least);
    r := q;
    DividesSelf(r);
    ReducedDivides(n0 * least, most, r);
    MultipleOf(n0, least, g, r);
  }

  /** The comparison at the least constant bounds the common multiple. */
  lemma SmallMultiple(least: nat, most: nat, chosen: nat, n0: nat)
    requires least > 0 && most > 0 && chosen > 0 && n0 == Div(most, Gcd(chosen, most)) && Gcd(chosen, most) == Gcd(most, chosen)
    requires least * most <= chosen * Gcd(most, n0 * least)
    ensures Gcd(most, chosen) > 0 && Lcm(least, Gcd(most, chosen)) <= chosen
  {
    var g, chosen', m', x, y := GcdParts(chosen, most);
    var r := ReducedMultipleOf(least, most, n0, g);
    Bounded(least, n0, g, chosen, Gcd(most, n0 * least), r);
    LcmBound(least, g, r);
  }

  lemma LcmBound(least: nat, g: nat, r: nat)
    requires least > 0 && g > 0 && r > 0 && Divides(least, r * g)
    ensures Lcm(least, g) <= r * g
  {
    DividesSelf(g);
    DividesTimes(g, g, r);
    LcmLeast(least, g, r * g);
    MulPositive(r, g);
    DividesLe(Lcm(least, g), r * g);
  }

  lemma MultipleOf(n0: nat, least: nat, g: nat, r: nat)
    requires n0 > 0 && Divides(n0 * least, r * (g * n0))
    ensures Divides(least, r * g)
  {
    var w: nat :| r * (g * n0) == (n0 * least) * w;
    Assoc(r, g, n0);
    Commute(r * g, n0);
    Assoc(n0, least, w);
    Cancel(n0, r * g, least * w);
  }

  lemma Bounded(least: nat, n0: nat, g: nat, chosen: nat, h: nat, r: nat)
    requires h > 0 && n0 * least == h * r && least * (g * n0) <= chosen * h
    ensures r * g <= chosen
  {
    Swap(least, g, n0);
    Commute(least, n0);
    Swap(g, h, r);
    Commute(g, r);
    Commute(h, r * g);
    assert least * (g * n0) == (r * g) * h;
    TimesLe(r * g, chosen, h);
  }

  lemma DimsSufficient(domain: Domain, n: nat, dims: seq<nat>, divisors: seq<nat>, c: nat -> nat)
    requires n > 0 && Choice(domain, Size(n, dims, divisors), c) && DimsOk(domain, dims, divisors, c)
    requires forall d :: d in divisors ==> RegularDivisor(domain, d)
    ensures BoundsOf(Size(n, dims, divisors), domain).min <= Value(Size(n, dims, divisors), c)
  {
    PickedParts(domain, dims, divisors, c);
    PickedPositive(domain, dims, c);
    PickedPositive(domain, divisors, c);
    var least, most, chosen, t := Times(Least(domain), dims), Times(Greatest(domain), divisors), Times(c, dims), Times(c, divisors);
    TimesDivides(c, Greatest(domain), divisors);
    var shared := Gcd(most, chosen);
    var m := Lcm(least, shared);
    LcmMultiple(least, shared);
    SharedMultiple(n, t, most, chosen, m);
    var x: nat :| n * m == t * x;
    MulPositive(n, least);
    CommonMultiple(n, least, m, t, x, most);
    ReduceDivides(n * least, Greatest(domain), divisors, x);
    var v: nat :| n * chosen == t * v;
    QuotientIs(t, n * chosen, v);
    MulPositive(n, m);
    MixedRadix.TimesZero(t, x);
    Commute(n, m);
    Commute(n, chosen);
    MixedRadix.MulMonotone(m, chosen, n);
    Commute(t, x);
    Commute(t, v);
    TimesLe(x, v, t);
    DividesLe(BoundsOf(Size(n, dims, divisors), domain).min, x);
  }

  /** What divides two numbers divides their greatest common divisor, scaled alike. */
  lemma SharedMultiple(n: nat, t: nat, most: nat, chosen: nat, m: nat)
    requires t > 0 && most > 0 && chosen > 0 && Divides(t, most) && Divides(t, n * chosen) && Divides(Gcd(most, chosen), m)
    ensures Divides(t, n * m)
  {
    var x, y := Bezout(most, chosen);
    var a: nat :| most == t * a;
    var b: nat :| n * chosen == t * b;
    var k: nat :| m == Gcd(most, chosen) * k;
    Scale(n, most, chosen, x, y, Gcd(most, chosen), t, a, b);
    var g := n * Gcd(most, chosen);
    Quotient(g, t, (n * a) * x + b * y);
    Assoc(n, Gcd(most, chosen), k);
    DividesTimes(t, g, k);
  }

  lemma Scale(n: nat, most: nat, chosen: nat, x: int, y: int, g: nat, t: nat, a: nat, b: nat)
    requires most * x + chosen * y == g && most == t * a && n * chosen == t * b
    ensures n * g == t * ((n * a) * x + b * y)
  {
    Distr(n, most * x, chosen * y);
    Assoc(n, most, x);
    Assoc(n, chosen, y);
    Swap(n, t, a);
    Assoc(t, n * a, x);
    Assoc(t, b, y);
    Distr(t, (n * a) * x, b * y);
  }

  lemma CommonMultiple(n: nat, least: nat, m: nat, t: nat, x: nat, most: nat)
    requires Divides(least, m) && Divides(t, most) && n * m == t * x
    ensures Divides(n * least, x * most)
  {
    var a: nat :| most == t * a;
    Swap(x, t, a);
    Assoc(t, x, a);
    assert x * most == (n * m) * a;
    DividesSelf(n);
    DividesProduct(n, n, least, m);
    DividesTimes(n * least, n * m, a);
  }

  /**
   With regular divisors apart from the dimensions, the least value bounds every value if and only
   if, for every choice of the dimensions, the product of the least sizes and what the chosen
   sizes share with the greatest divisors have a common multiple up to the product chosen.
   */
  lemma RegularDivisorsMinIff(domain: Domain, dims: seq<nat>, divisors: seq<nat>)
    requires (forall d :: d in divisors ==> RegularDivisor(domain, d)) && forall d :: d in dims ==> d !in divisors
    ensures Sound(domain, dims, divisors) <==>
            forall c: nat -> nat :: Picked(domain, dims + divisors, c) ==> DimsOk(domain, dims, divisors, c)
  {
    if Sound(domain, dims, divisors) {
      forall c: nat -> nat | Picked(domain, dims + divisors, c) ensures DimsOk(domain, dims, divisors, c) {
        DimsNecessary(domain, dims, divisors, c);
      }
    }
    if forall c: nat -> nat :: Picked(domain, dims + divisors, c) ==> DimsOk(domain, dims, divisors, c) {
      forall n: nat, c: nat -> nat | n > 0 ensures SoundAt(domain, Size(n, dims, divisors), c) {
        if Choice(domain, Size(n, dims, divisors), c) {
          assert Picked(domain, dims + divisors, c);
          DimsSufficient(domain, n, dims, divisors, c);
        }
      }
    }
  }

  // ----- Inputs that fail -----

  function TwoTiles(): Domain {
    (d: nat) => [2, 3]
  }

  /** Two tiles of size two or three of a dimension of size twelve: with sizes two and three the value is two, the bound is four. */
  lemma MinCanExceedValue()
    ensures
      var size, c := Size(12, [], [0, 1]), (d: nat) => if d == 0 then 2 else 3;
      Choice(TwoTiles(), size, c) && Value(size, c) == 2 && BoundsOf(size, TwoTiles()).min == 4
  {
    var size, c: nat -> nat := Size(12, [], [0, 1]), (d: nat) => if d == 0 then 2 else 3;
    assert [0, 1][..1] == [0] && [0][..0] == [];
    assert Times(c, []) == 1 && Times(c, [0]) == 2 && Times(c, [0, 1]) == 6;
    assert 12 == 6 * 2;
    assert MaxOf([2, 3]) == 3;
    var g := Greatest(TwoTiles());
    assert Gcd(3, 12) == 3 by { assert Gcd(12, 3) == 3; }
    assert Gcd(3, 4) == 1 by { assert Gcd(4, 3) == 1 by { assert Gcd(3, 1) == 1; } }
    assert Reduce(12, g, []) == 12 && Reduce(12, g, [0]) == 4 && Reduce(12, g, [0, 1]) == 4;
  }

  function TileAndPart(): Domain {
    (d: nat) => if d == 0 then [2, 3] else [3]
  }

  /** Regular divisors are not enough: a dimension of size two or three divided by three has value one and bound two. */
  lemma IrregularDimensionFails()
    ensures
      var size, c := Size(1, [0], [1]), (d: nat) => 3;
      Choice(TileAndPart(), size, c) && Value(size, c) == 1 && BoundsOf(size, TileAndPart()).min == 2
    ensures RegularDivisor(TileAndPart(), 1)
  {
    var size, c: nat -> nat := Size(1, [0], [1]), (d: nat) => 3;
    assert [0][..0] == [] && [1][..0] == [];
    assert Times(c, [0]) == 3 && Times(c, [1]) == 3;
    assert 3 == 3 * 1;
    assert MinOf([2, 3]) == 2 && MaxOf([3]) == 3;
    var g, l := Greatest(TileAndPart()), Least(TileAndPart());
    assert Times(l, [0]) == 2;
    assert Gcd(3, 2) == 1 by { assert Gcd(2, 1) == 1; }
    assert Reduce(2, g, []) == 2 && Reduce(2, g, [1]) == 2;
  }
}
