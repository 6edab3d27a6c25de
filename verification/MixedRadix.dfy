/** Numbers written with one digit per size, the most significant first. */
module MixedRadix {

  function Product(sizes: seq<nat>): nat {
    if sizes == [] then 1 else sizes[0] * Product(sizes[1..])
  }

  ghost predicate Digits(sizes: seq<nat>, digits: seq<nat>) {
    |digits| == |sizes| && forall k :: 0 <= k < |sizes| ==> digits[k] < sizes[k]
  }

  function Rank(sizes: seq<nat>, digits: seq<nat>): nat
    requires |digits| == |sizes|
  {
    if sizes == [] then 0 else digits[0] * Product(sizes[1..]) + Rank(sizes[1..], digits[1..])
  }

  /** The digits of a number. */
  function Unrank(sizes: seq<nat>, n: nat): (digits: seq<nat>)
    ensures |digits| == |sizes|
  {
    if sizes == [] then []
    else
      var below := Product(sizes[1..]);
      if below == 0 then [0] + Unrank(sizes[1..], 0)
      else [n / below] + Unrank(sizes[1..], n % below)
  }

  /** Digits compared from the most significant one. */
  ghost predicate LexLess(a: seq<nat>, b: seq<nat>)
    requires |a| == |b|
  {
    a != [] && (a[0] < b[0] || (a[0] == b[0] && LexLess(a[1..], b[1..])))
  }

  lemma {:induction false} MulGap(a: nat, b: nat, m: nat)
    requires a < b
    ensures a * m + m <= b * m
    decreases b
  {
    assert b * m == (b - 1) * m + m;
    if a + 1 < b {
      MulGap(a, b - 1, m);
    }
  }

  lemma MulMonotone(a: nat, b: nat, m: nat)
    ensures a <= b ==> a * m <= b * m
  {
    if a < b {
      MulGap(a, b, m);
    }
  }

  lemma TimesZero(a: nat, m: nat)
    ensures m == 0 ==> a * m == 0
  {
  }

  /** A smaller leading digit makes a smaller number. */
  lemma Leading(a: nat, b: nat, r: nat, s: nat, m: nat)
    requires a < b && r < m
    ensures a * m + r < b * m + s
  {
    MulGap(a, b, m);
  }

  lemma {:induction false} RankBound(sizes: seq<nat>, digits: seq<nat>)
    requires Digits(sizes, digits)
    ensures Rank(sizes, digits) < Product(sizes)
  {
    if sizes != [] {
      RankBound(sizes[1..], digits[1..]);
      Leading(digits[0], sizes[0], Rank(sizes[1..], digits[1..]), 0, Product(sizes[1..]));
    }
  }

  lemma DivMod(q: nat, r: nat, m: nat)
    requires r < m
    ensures (q * m + r) / m == q && (q * m + r) % m == r
  {
    var n := q * m + r;
    var q', r' := n / m, n % m;
    assert n == q' * m + r';
    if q' < q {
      Leading(q', q, r', r, m);
    } else if q < q' {
      Leading(q, q', r, r', m);
    }
  }

  lemma QuotientBound(n: nat, size: nat, m: nat)
    requires n < size * m && m > 0
    ensures n / m < size && n == (n / m) * m + n % m
  {
    assert n == (n / m) * m + n % m;
    MulMonotone(size, n / m, m);
  }

  /** Every number below the product of the sizes is written in one way. */
  lemma {:induction false} RankUnrank(sizes: seq<nat>, n: nat)
    requires n < Product(sizes)
    ensures Digits(sizes, Unrank(sizes, n)) && Rank(sizes, Unrank(sizes, n)) == n
  {
    if sizes != [] {
      var below := Product(sizes[1..]);
      TimesZero(sizes[0], below);
      QuotientBound(n, sizes[0], below);
      RankUnrank(sizes[1..], n % below);
      assert Unrank(sizes, n)[1..] == Unrank(sizes[1..], n % below);
    }
  }

  lemma {:induction false} UnrankRank(sizes: seq<nat>, digits: seq<nat>)
    requires Digits(sizes, digits)
    ensures Unrank(sizes, Rank(sizes, digits)) == digits
  {
    if sizes != [] {
      RankBound(sizes[1..], digits[1..]);
      DivMod(digits[0], Rank(sizes[1..], digits[1..]), Product(sizes[1..]));
      UnrankRank(sizes[1..], digits[1..]);
    }
  }

  /** Numbers are ordered as their digits are. */
  lemma {:induction false} RankOrder(sizes: seq<nat>, a: seq<nat>, b: seq<nat>)
    requires Digits(sizes, a) && Digits(sizes, b)
    ensures LexLess(a, b) <==> Rank(sizes, a) < Rank(sizes, b)
  {
    if sizes != [] {
      RankOrder(sizes[1..], a[1..], b[1..]);
      RankBound(sizes[1..], a[1..]);
      RankBound(sizes[1..], b[1..]);
      var below, r, s := Product(sizes[1..]), Rank(sizes[1..], a[1..]), Rank(sizes[1..], b[1..]);
      if a[0] < b[0] {
        Leading(a[0], b[0], r, s, below);
      } else if b[0] < a[0] {
        Leading(b[0], a[0], s, r, below);
      }
    }
  }

  lemma RankInjective(sizes: seq<nat>, a: seq<nat>, b: seq<nat>)
    requires Digits(sizes, a) && Digits(sizes, b) && Rank(sizes, a) == Rank(sizes, b)
    ensures a == b
  {
    UnrankRank(sizes, a);
    UnrankRank(sizes, b);
  }

  // ----- Horner's form -----

  /** The first `n` digits folded from the most significant one. */
  function Horner(sizes: seq<nat>, digits: seq<nat>, n: nat): nat
    requires n <= |sizes| == |digits|
  {
    if n == 0 then 0 else Horner(sizes, digits, n - 1) * sizes[n - 1] + digits[n - 1]
  }

  lemma {:induction false} ProductAppend(sizes: seq<nat>, n: nat)
    ensures Product(sizes + [n]) == Product(sizes) * n
  {
    if sizes == [] {
      assert [n][1..] == [];
    } else {
      assert (sizes + [n])[1..] == sizes[1..] + [n];
      ProductAppend(sizes[1..], n);
      assert sizes[0] * (Product(sizes[1..]) * n) == sizes[0] * Product(sizes[1..]) * n;
    }
  }

  lemma {:induction false} RankAppend(sizes: seq<nat>, digits: seq<nat>, size: nat, digit: nat)
    requires |digits| == |sizes|
    ensures Rank(sizes + [size], digits + [digit]) == Rank(sizes, digits) * size + digit
  {
    if sizes == [] {
      assert [size][1..] == [] && [digit][1..] == [];
      assert Product([]) == 1;
    } else {
      assert (sizes + [size])[1..] == sizes[1..] + [size] && (digits + [digit])[1..] == digits[1..] + [digit];
      RankAppend(sizes[1..], digits[1..], size, digit);
      ProductAppend(sizes[1..], size);
      var d, p, r := digits[0], Product(sizes[1..]), Rank(sizes[1..], digits[1..]);
      assert d * (p * size) == d * p * size && (d * p + r) * size == d * p * size + r * size;
    }
  }

  /** The fold computes the number its digits write. */
  lemma {:induction false} HornerIsRank(sizes: seq<nat>, digits: seq<nat>, n: nat)
    requires n <= |sizes| == |digits|
    ensures Horner(sizes, digits, n) == Rank(sizes[..n], digits[..n])
  {
    if n > 0 {
      HornerIsRank(sizes, digits, n - 1);
      assert sizes[..n] == sizes[..n - 1] + [sizes[n - 1]] && digits[..n] == digits[..n - 1] + [digits[n - 1]];
      RankAppend(sizes[..n - 1], digits[..n - 1], sizes[n - 1], digits[n - 1]);
    }
  }
}
