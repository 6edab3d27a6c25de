/** Divisors, greatest common divisors and least common multiples of positive numbers. */
module Divisibility {
  import MixedRadix

  lemma Assoc(x: int, y: int, z: int)
    ensures (x * y) * z == x * (y * z)
  {
  }

  lemma Distr(x: int, y: int, z: int)
    ensures x * (y + z) == x * y + x * z
  {
  }

  lemma Commute(x: int, y: int)
    ensures x * y == y * x
  {
  }

  ghost predicate Divides(a: nat, b: nat) {
    exists k: nat :: b == a * k
  }

  function Div(a: nat, b: nat): nat {
    if b == 0 then 0 else a / b
  }

  lemma DividesSelf(a: nat)
    ensures Divides(a, a) && Divides(1, a)
  {
    assert a == a * 1 && a == 1 * a;
  }

  lemma DividesProduct(a: nat, b: nat, c: nat, d: nat)
    requires Divides(a, b) && Divides(c, d)
    ensures Divides(a * c, b * d)
  {
    var k: nat :| b == a * k;
    var n: nat :| d == c * n;
    assert b * d == (a * c) * (k * n) by {
      assert (a * k) * (c * n) == (a * c) * (k * n);
    }
  }

  lemma DividesTrans(a: nat, b: nat, c: nat)
    requires Divides(a, b) && Divides(b, c)
    ensures Divides(a, c)
  {
    var k: nat :| b == a * k;
    var n: nat :| c == b * n;
    assert c == a * (k * n);
  }

  lemma DividesTimes(a: nat, b: nat, c: nat)
    requires Divides(a, b)
    ensures Divides(a, b * c) && Divides(a, c * b)
  {
    var k: nat :| b == a * k;
    assert b * c == a * (k * c) && c * b == a * (k * c);
  }

  lemma DividesLe(a: nat, b: nat)
    requires Divides(a, b) && b > 0
    ensures 0 < a <= b
  {
    var k: nat :| b == a * k;
    MixedRadix.MulMonotone(1, k, a);
    Commute(a, k);
    MixedRadix.TimesZero(a, k);
    MixedRadix.TimesZero(k, a);
  }

  /** An exact quotient is the only solution of its equation. */
  lemma QuotientIs(a: nat, b: nat, k: nat)
    requires a > 0 && b == a * k
    ensures b / a == k
  {
    Commute(a, k);
    MixedRadix.DivMod(k, 0, a);
  }

  lemma Cancel(a: nat, x: nat, y: nat)
    requires a > 0 && a * x == a * y
    ensures x == y
  {
    QuotientIs(a, a * x, x);
    QuotientIs(a, a * y, y);
  }

  // ----- Greatest common divisors -----

  function Gcd(a: nat, b: nat): nat
    decreases b
  {
    if b == 0 then a else Gcd(b, a % b)
  }

  lemma {:induction false} GcdDivides(a: nat, b: nat)
    ensures Divides(Gcd(a, b), a) && Divides(Gcd(a, b), b)
    ensures a > 0 || b > 0 ==> Gcd(a, b) > 0
    decreases b
  {
    if b == 0 {
      DividesSelf(a);
      assert 0 == a * 0;
    } else {
      GcdDivides(b, a % b);
      EuclidStep(a, b, Gcd(b, a % b));
    }
  }

  lemma EuclidStep(a: nat, b: nat, g: nat)
    requires b > 0 && Divides(g, b) && Divides(g, a % b)
    ensures Divides(g, a)
  {
    DividesSum(g, b, a % b, a / b);
  }

  lemma DividesSum(g: nat, b: nat, r: nat, q: nat)
    requires Divides(g, b) && Divides(g, r)
    ensures Divides(g, b * q + r)
  {
    var k: nat :| b == g * k;
    var n: nat :| r == g * n;
    Assoc(g, k, q);
    Distr(g, k * q, n);
    assert b * q + r == g * (k * q + n);
  }

  /** The greatest common divisor is a combination of both numbers. */
  lemma {:induction false} Bezout(a: nat, b: nat) returns (x: int, y: int)
    ensures a * x + b * y == Gcd(a, b)
    decreases b
  {
    if b == 0 {
      x, y := 1, 0;
    } else {
      var x', y' := Bezout(b, a % b);
      x, y := y', x' - (a / b) * y';
      BezoutStep(a, b, a / b, a % b, x', y');
    }
  }

  lemma BezoutStep(a: nat, b: nat, q: nat, r: nat, x: int, y: int)
    requires a == b * q + r
    ensures a * y + b * (x - q * y) == b * x + r * y
  {
    Distr(y, b * q, r);
    Commute(y, b * q + r);
    Commute(y, b * q);
    Commute(y, r);
    Assoc(b, q, y);
    Distr(b, x, -(q * y));
    assert b * (-(q * y)) == -(b * (q * y));
  }

  // ----- Exact divisions -----

  /**
   Dividing a lower factor by what it shares with a multiple of the divisor leaves a factor:
   if `g` divides `v` and `t` divides both `v` and `l`, then `g / gcd(l, g)` divides `v / t`.
   */
  lemma ReducedFactor(v: nat, g: nat, t: nat, l: nat)
    requires v > 0 && g > 0 && l > 0 && t > 0
    requires Divides(g, v) && Divides(t, v) && Divides(t, l)
    ensures Gcd(l, g) > 0 && g / Gcd(l, g) > 0 && Divides(g / Gcd(l, g), v / t)
  {
    GcdDivides(l, g);
    var d := Gcd(l, g);
    var g': nat :| g == d * g';
    var l': nat :| l == d * l';
    QuotientIs(d, g, g');
    Commute(d, g');
    MixedRadix.TimesZero(d, g');
    var k: nat :| v == g * k;
    var u: nat :| v == t * u;
    QuotientIs(t, v, u);
    var s: nat :| l == t * s;
    var x, y := Bezout(l, g);
    Coprime(d, l', g', x, y);
    Crossed(t, u, l', s, g', k, d, v);
    Combined(u, l', g', x, y, s * k);
    Quotient(u, g', s * k * x + u * y);
  }

  lemma Coprime(d: nat, l': nat, g': nat, x: int, y: int)
    requires d > 0 && (d * l') * x + (d * g') * y == d
    ensures l' * x + g' * y == 1
  {
    var c := l' * x + g' * y;
    Assoc(d, l', x);
    Assoc(d, g', y);
    Distr(d, l' * x, g' * y);
    assert d * c == d;
    if c >= 0 {
      QuotientIs(d, d, c);
      QuotientIs(d, d, 1);
    } else {
      Negative(d, c);
    }
  }

  lemma Negative(d: nat, c: int)
    requires c < 0
    ensures d * c <= 0
  {
  }

  lemma Quotient(u: nat, g': nat, w: int)
    requires u == g' * w
    ensures Divides(g', u)
  {
    if w < 0 {
      Negative(g', w);
      assert u == g' * 0;
    }
  }

  lemma Crossed(t: nat, u: nat, l': nat, s: nat, g': nat, k: nat, d: nat, v: nat)
    requires t > 0 && v == t * u && v == (d * g') * k && d * l' == t * s
    ensures u * l' == (s * k) * g'
  {
    Assoc(t, u, l');
    Assoc(d, g', k);
    Commute(d, g' * k);
    Assoc(g' * k, d, l');
    Commute(g' * k, t * s);
    Assoc(t, s, g' * k);
    Assoc(s, k, g');
    Commute(k, g');
    assert t * (u * l') == v * l' == (g' * k) * (d * l') == t * (s * (g' * k));
    Cancel(t, u * l', s * (g' * k));
  }

  lemma Combined(u: nat, l': nat, g': nat, x: int, y: int, m: nat)
    requires l' * x + g' * y == 1 && u * l' == m * g'
    ensures u == g' * (m * x + u * y)
  {
    Distr(u, l' * x, g' * y);
    Assoc(u, l', x);
    Assoc(u, g', y);
    Commute(m, g');
    Commute(u, g');
    Assoc(g', m, x);
    Assoc(g', u, y);
    Distr(g', m * x, u * y);
  }

  /** Both numbers over their greatest common divisor, which are coprime. */
  lemma GcdParts(a: nat, m: nat) returns (g: nat, a': nat, m': nat, x: int, y: int)
    requires a > 0 && m > 0
    ensures g == Gcd(a, m) > 0 && a == g * a' && m == g * m' && m' > 0
    ensures Div(m, Gcd(a, m)) == m' && a' * x + m' * y == 1
  {
    GcdDivides(a, m);
    g := Gcd(a, m);
    a' :| a == g * a';
    m' :| m == g * m';
    QuotientIs(g, m, m');
    Commute(g, m');
    MixedRadix.TimesZero(g, m');
    x, y := Bezout(a, m);
    Coprime(g, a', m', x, y);
  }

  /** What is left of `m` without what it shares with `a` divides exactly the numbers that `a` turns into multiples of `m`. */
  lemma ReducedDivides(m: nat, a: nat, y: nat)
    requires m > 0 && a > 0
    ensures Divides(Div(m, Gcd(a, m)), y) <==> Divides(m, y * a)
  {
    var g, a', m', x, z := GcdParts(a, m);
    Swap(y, g, a');
    assert y * a == g * (y * a');
    if Divides(m, y * a) {
      CancelShared(g, m', y * a');
      CoprimeDivides(m', a', y, x, z);
    }
    if Divides(m', y) {
      DividesTimes(m', y, a');
      DividesSelf(g);
      DividesProduct(g, g, m', y * a');
    }
  }

  lemma CancelShared(g: nat, m: nat, n: nat)
    requires g > 0 && Divides(g * m, g * n)
    ensures Divides(m, n)
  {
    var w: nat :| g * n == (g * m) * w;
    Assoc(g, m, w);
    Cancel(g, n, m * w);
  }

  /** A divisor of a product that is coprime with one side divides the other. */
  lemma CoprimeDivides(m: nat, a: nat, y: nat, x: int, z: int)
    requires a * x + m * z == 1 && Divides(m, y * a)
    ensures Divides(m, y)
  {
    var w: nat :| y * a == m * w;
    Commute(m, w);
    Combined(y, a, m, x, z, w);
    Quotient(y, m, w * x + y * z);
  }

  lemma Swap(a: nat, b: nat, c: nat)
    ensures a * (b * c) == b * (a * c)
  {
    Assoc(a, b, c);
    Commute(a, b);
    Assoc(b, a, c);
  }

  lemma DividesBoth(a: nat, b: nat)
    requires Divides(a, b) && Divides(b, a) && a > 0
    ensures a == b
  {
    var k: nat :| a == b * k;
    MixedRadix.TimesZero(k, b);
    Commute(b, k);
    DividesLe(a, b);
    DividesLe(b, a);
  }

  lemma GcdGreatest(a: nat, b: nat, d: nat)
    requires Divides(d, a) && Divides(d, b)
    ensures Divides(d, Gcd(a, b))
  {
    var x, y := Bezout(a, b);
    var k: nat :| a == d * k;
    var n: nat :| b == d * n;
    Assoc(d, k, x);
    Assoc(d, n, y);
    Distr(d, k * x, n * y);
    Quotient(Gcd(a, b), d, k * x + n * y);
  }

  /** Dividing a multiple by a factor of the divisor leaves a multiple. */
  lemma ReducedMultiple(v: nat, m: nat, t: nat, h: nat)
    requires v > 0 && t > 0 && Divides(v, m) && Divides(t, v) && Divides(h, t)
    ensures h > 0 && Divides(v / t, m / h)
  {
    DividesLe(h, t);
    var k: nat :| m == v * k;
    var u: nat :| v == t * u;
    var s: nat :| t == h * s;
    QuotientIs(t, v, u);
    Assoc(h, s, u);
    Assoc(h, s * u, k);
    Commute(s, u);
    Assoc(u, s, k);
    assert m == h * (u * (s * k));
    QuotientIs(h, m, u * (s * k));
  }

  /** Rounding down keeps an upper bound of an exact quotient. */
  lemma ReducedBound(v: nat, m: nat, t: nat, least: nat)
    requires 0 < least <= t && Divides(t, v) && v <= m
    ensures v / t <= m / least
  {
    var u: nat :| v == t * u;
    QuotientIs(t, v, u);
    MixedRadix.MulMonotone(least, t, u);
    var q := m / least;
    Commute(least, q);
    Commute(least, u);
    if q < u {
      MixedRadix.MulGap(q, u, least);
    }
  }

  // ----- Least common multiples -----

  function Lcm(a: nat, b: nat): nat
    requires a > 0 && b > 0
  {
    Div(a, Gcd(a, b)) * b
  }

  lemma LcmMultiple(a: nat, b: nat)
    requires a > 0 && b > 0
    ensures Lcm(a, b) > 0 && Divides(a, Lcm(a, b)) && Divides(b, Lcm(a, b))
  {
    GcdDivides(a, b);
    var g := Gcd(a, b);
    var k: nat :| a == g * k;
    var n: nat :| b == g * n;
    QuotientIs(g, a, k);
    Commute(g, k);
    Assoc(k, g, n);
    assert Lcm(a, b) == k * b == a * n;
    Commute(k, b);
    MixedRadix.TimesZero(g, k);
    MixedRadix.MulMonotone(1, k, b);
  }

  /** A common multiple is a multiple of the least one. */
  lemma LcmLeast(a: nat, b: nat, m: nat)
    requires a > 0 && b > 0 && Divides(a, m) && Divides(b, m)
    ensures Divides(Lcm(a, b), m)
  {
    var k: nat :| m == b * k;
    Commute(b, k);
    Commute(a, b);
    ReducedDivides(a, b, k);
    GcdCommutes(a, b);
    var w: nat :| k == Div(a, Gcd(b, a)) * w;
    Swap(b, Div(a, Gcd(a, b)), w);
    Assoc(Div(a, Gcd(a, b)), b, w);
  }

  lemma GcdCommutes(a: nat, b: nat)
    requires a > 0 && b > 0
    ensures Gcd(a, b) == Gcd(b, a)
  {
    GcdDivides(a, b);
    GcdDivides(b, a);
    GcdGreatest(a, b, Gcd(b, a));
    GcdGreatest(b, a, Gcd(a, b));
    DividesBoth(Gcd(a, b), Gcd(b, a));
  }

  /** Multiplying by a positive number keeps comparisons. */
  lemma TimesLe(a: nat, b: nat, k: nat)
    requires k > 0
    ensures a <= b <==> a * k <= b * k
  {
    MixedRadix.MulMonotone(a, b, k);
    if b < a {
      MixedRadix.MulGap(b, a, k);
    }
  }

  lemma MulPositive(a: nat, b: nat)
    requires a > 0 && b > 0
    ensures a * b > 0
  {
  }
}
