/** Products over lists. */
module Products {
  import opened Divisibility
  import MixedRadix

  /** The product of `f` over a list. */
  function Times(f: nat -> nat, s: seq<nat>): nat {
    if s == [] then 1 else Times(f, s[..|s| - 1]) * f(s[|s| - 1])
  }

  lemma {:induction false} TimesConcat(f: nat -> nat, s: seq<nat>, t: seq<nat>)
    ensures Times(f, s + t) == Times(f, s) * Times(f, t)
  {
    if t == [] {
      assert s + t == s;
    } else {
      var n := |t| - 1;
      assert (s + t)[..|s + t| - 1] == s + t[..n];
      TimesConcat(f, s, t[..n]);
      Assoc(Times(f, s), Times(f, t[..n]), f(t[n]));
    }
  }

  lemma {:induction false} TimesPositive(f: nat -> nat, dims: seq<nat>)
    requires forall d :: d in dims ==> f(d) > 0
    ensures Times(f, dims) > 0
  {
    if dims != [] {
      var n := |dims| - 1;
      TimesPositive(f, dims[..n]);
      MulPositive(Times(f, dims[..n]), f(dims[n]));
    }
  }

  lemma {:induction false} TimesDivides(f: nat -> nat, g: nat -> nat, dims: seq<nat>)
    requires forall d :: d in dims ==> Divides(f(d), g(d))
    ensures Divides(Times(f, dims), Times(g, dims))
  {
    if dims == [] {
      DividesSelf(1);
    } else {
      var n := |dims| - 1;
      TimesDivides(f, g, dims[..n]);
      DividesProduct(Times(f, dims[..n]), Times(g, dims[..n]), f(dims[n]), g(dims[n]));
    }
  }

  lemma {:induction false} TimesMonotone(f: nat -> nat, g: nat -> nat, dims: seq<nat>)
    requires forall d :: d in dims ==> f(d) <= g(d)
    ensures Times(f, dims) <= Times(g, dims)
  {
    if dims != [] {
      var n := |dims| - 1;
      TimesMonotone(f, g, dims[..n]);
      ProductMonotone(Times(f, dims[..n]), Times(g, dims[..n]), f(dims[n]), g(dims[n]));
    }
  }

  lemma ProductMonotone(a: nat, b: nat, x: nat, y: nat)
    requires a <= b && x <= y
    ensures a * x <= b * y
  {
    MixedRadix.MulMonotone(a, b, x);
    MixedRadix.MulMonotone(x, y, b);
    Commute(x, b);
    Commute(y, b);
  }
}
