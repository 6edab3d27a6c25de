/** Sizes in generated code: a constant and parameters divided exactly by a constant. */
module CodegenSizes {
  import opened Wrappers
  import opened Divisibility
  import PartialSizes
  import Products
  import MixedRadix

  datatype Quotient = Quotient(factor: nat, dividend: seq<nat>, divisor: nat) {
    ghost predicate Valid() {
      divisor > 0
    }

    /** `v` is the exact value of the size. */
    ghost predicate IsValue(param: nat -> nat, v: nat) {
      factor * Products.Times(param, dividend) == v * divisor
    }

    /** The constant the program takes the size to be. */
    function AsInt(): Option<nat> {
      if dividend == [] then Some(factor) else None
    }
  }

  /** Numerator and denominator divided by what they share. */
  function Simplify(q: Quotient): Quotient {
    var g := Gcd(q.factor, q.divisor);
    q.(factor := Div(q.factor, g), divisor := Div(q.divisor, g))
  }

  function Product(a: Quotient, b: Quotient): Quotient {
    Simplify(Quotient(a.factor * b.factor, a.dividend + b.dividend, a.divisor * b.divisor))
  }

  lemma SimplifyParts(q: Quotient) returns (g: nat, f: nat, d: nat)
    requires q.Valid()
    ensures g > 0 && d > 0 && q.factor == g * f && q.divisor == g * d
    ensures Simplify(q) == q.(factor := f, divisor := d)
  {
    GcdDivides(q.factor, q.divisor);
    g := Gcd(q.factor, q.divisor);
    f :| q.factor == g * f;
    d :| q.divisor == g * d;
    QuotientIs(g, q.factor, f);
    QuotientIs(g, q.divisor, d);
    assert d == 0 ==> g * d == 0;
  }

  /** Simplifying keeps the value. */
  lemma SimplifyKeepsValue(q: Quotient, param: nat -> nat, v: nat)
    requires q.Valid()
    ensures Simplify(q).Valid() && (Simplify(q).IsValue(param, v) <==> q.IsValue(param, v))
  {
    var g, f, d := SimplifyParts(q);
    var p := Products.Times(param, q.dividend);
    Assoc(g, f, p);
    Swap(v, g, d);
    if g * (f * p) == g * (v * d) {
      Cancel(g, f * p, v * d);
    }
  }

  /** Multiplying sizes multiplies their values. */
  lemma ProductValue(a: Quotient, b: Quotient, param: nat -> nat, x: nat, y: nat)
    requires a.Valid() && b.Valid() && a.IsValue(param, x) && b.IsValue(param, y)
    ensures Product(a, b).Valid() && Product(a, b).IsValue(param, x * y)
  {
    var q := Quotient(a.factor * b.factor, a.dividend + b.dividend, a.divisor * b.divisor);
    MulPositive(a.divisor, b.divisor);
    Products.TimesConcat(param, a.dividend, b.dividend);
    PartialSizes.FourFactors(a.factor, b.factor, Products.Times(param, a.dividend), Products.Times(param, b.dividend));
    PartialSizes.FourFactors(x, y, a.divisor, b.divisor);
    SimplifyKeepsValue(q, param, x * y);
  }

  /** A size without parameters is the constant it is taken for exactly when the division has no remainder. */
  lemma AsIntIffExact(factor: nat, divisor: nat, param: nat -> nat)
    requires factor > 0 && divisor > 0
    ensures
      var q := Simplify(Quotient(factor, [], divisor));
      q.AsInt().Some? && (q.IsValue(param, q.AsInt().value) <==> Divides(divisor, factor))
  {
    var q0 := Quotient(factor, [], divisor);
    var g, f, d := SimplifyParts(q0);
    assert f == 0 ==> g * f == 0;
    if f * 1 == f * d {
      Cancel(f, 1, d);
      assert factor == divisor * f;
    }
    if Divides(divisor, factor) {
      var k: nat :| factor == divisor * k;
      Assoc(g, d, k);
      Cancel(g, f, d * k);
      GcdOfMultiple(factor, divisor);
      Cancel(g, d, 1);
    }
  }

  /** A number that divides another is their greatest common divisor. */
  lemma GcdOfMultiple(a: nat, b: nat)
    requires b > 0 && Divides(b, a)
    ensures Gcd(a, b) == b
  {
    var k: nat :| a == b * k;
    Commute(b, k);
    MixedRadix.DivMod(k, 0, b);
  }

  class CodegenSize {
    var factor: nat
    var dividend: seq<nat>
    var divisor: nat

    function View(): Quotient
      reads this
    {
      Quotient(factor, dividend, divisor)
    }

    constructor (factor: nat, dividend: seq<nat>, divisor: nat)
      requires divisor != 0
      ensures View() == Simplify(Quotient(factor, dividend, divisor))
    {
      this.factor, this.dividend, this.divisor := factor, dividend, divisor;
      new;
      SimplifyFraction();
    }

    method SimplifyFraction()
      modifies this`factor, this`divisor
      ensures View() == Simplify(old(View()))
    {
      var gcd := Gcd(factor, divisor);
      factor := Div(factor, gcd);
      divisor := Div(divisor, gcd);
    }

    method MulAssign(rhs: Quotient)
      modifies this
      ensures View() == Product(old(View()), rhs)
    {
      factor := factor * rhs.factor;
      dividend := dividend + rhs.dividend;
      divisor := divisor * rhs.divisor;
      SimplifyFraction();
    }
  }
}
