/** Tensors whose dimensions are transposed in memory or hidden, and the addresses of their elements. */
module Tensors {
  import opened Wrappers
  import opened Divisibility
  import PartialSizes
  import Products
  import MixedRadix

  /** The size of a dimension: a constant times parameters. */
  datatype DimSize = DimSize(factor: nat, params: seq<nat>) {
    function Eval(param: nat -> nat): nat {
      factor * Products.Times(param, params)
    }

    function Times(other: DimSize): DimSize {
      DimSize(factor * other.factor, params + other.params)
    }
  }

  lemma EvalTimes(a: DimSize, b: DimSize, param: nat -> nat)
    ensures a.Times(b).Eval(param) == a.Eval(param) * b.Eval(param)
  {
    Products.TimesConcat(param, a.params, b.params);
    PartialSizes.FourFactors(a.factor, b.factor, Products.Times(param, a.params), Products.Times(param, b.params));
  }

  function Remove<T>(s: seq<T>, k: nat): seq<T>
    requires k < |s|
  {
    s[..k] + s[k + 1..]
  }

  class TensorBuilder {
    var storage: seq<DimSize>
    var exposed: seq<nat>

    /** Exposed dimensions are distinct dimensions of the storage. */
    ghost predicate Valid()
      reads this
    {
      && (forall e :: 0 <= e < |exposed| ==> exposed[e] < |storage|)
      && (forall e, f :: 0 <= e < f < |exposed| ==> exposed[e] != exposed[f])
    }

    /** The sizes seen by the user. */
    ghost function Logical(): seq<DimSize>
      reads this
      requires Valid()
    {
      seq(|exposed|, e requires 0 <= e < |exposed| reads this requires Valid() => storage[exposed[e]])
    }

    constructor (dims: seq<DimSize>)
      ensures Valid() && storage == dims && Logical() == dims
    {
      storage := dims;
      exposed := seq(|dims|, k => k);
    }

    /** Swaps two dimensions in memory; their logical order does not change. */
    method Transpose(lhs: nat, rhs: nat)
      requires Valid() && lhs < |exposed| && rhs < |exposed|
      modifies this
      ensures Valid() && Logical() == old(Logical())
      ensures multiset(storage) == multiset(old(storage))
      ensures storage == old(storage)[old(exposed)[lhs] := old(storage)[old(exposed)[rhs]]][old(exposed)[rhs] := old(storage)[old(exposed)[lhs]]]
    {
      var i, j := exposed[lhs], exposed[rhs];
      storage := storage[i := storage[j]][j := storage[i]];
      exposed := exposed[lhs := j][rhs := i];
    }

    /** Hides a dimension but keeps it in memory. */
    method StrideDim(dim: nat)
      requires Valid() && dim < |exposed|
      modifies this`exposed
      ensures Valid() && Logical() == Remove(old(Logical()), dim)
    {
      exposed := exposed[..dim] + exposed[dim + 1..];
    }

    /** The stride of each dimension, in the order of the storage. */
    method Strides(len: nat) returns (strides: seq<DimSize>)
      ensures |strides| == |storage| && forall k :: 0 <= k < |storage| ==> IsStride(storage, len, k + 1, strides[k])
    {
      strides := [];
      var stride := DimSize(len, []);
      FirstStride(storage, stride, len);
      for k := |storage| downto 0
        invariant |strides| == |storage| - k && IsStride(storage, len, k, stride)
        invariant forall i :: 0 <= i < |strides| ==> IsStride(storage, len, k + i + 1, strides[i])
      {
        ghost var before := strides;
        strides := [stride] + strides;
        StrideStep(storage, stride, k, len);
        stride := stride.Times(storage[k]);
        forall i | 0 <= i < |strides| ensures IsStride(storage, len, k + i + 1, strides[i]) {
          if i > 0 {
            assert IsStride(storage, len, k + 1 + (i - 1) + 1, before[i - 1]);
          }
        }
      }
    }

    /** The exposed dimensions, with their sizes and strides. */
    method Finish(len: nat) returns (dims: seq<(DimSize, DimSize)>)
      requires Valid()
      ensures |dims| == |exposed| && forall e :: 0 <= e < |dims| ==> dims[e].0 == Logical()[e]
      ensures forall e :: 0 <= e < |dims| ==> IsStride(storage, len, exposed[e] + 1, dims[e].1)
    {
      var strides := Strides(len);
      dims := [];
      for e := 0 to |exposed|
        invariant |dims| == e && forall f :: 0 <= f < e ==> dims[f] == (storage[exposed[f]], strides[exposed[f]])
      {
        dims := dims + [(storage[exposed[e]], strides[exposed[e]])];
      }
    }
  }

  /** Whatever the parameters, `s` is the size of an element times the dimensions from `j` on. */
  ghost predicate IsStride(storage: seq<DimSize>, len: nat, j: nat, s: DimSize)
    requires j <= |storage|
  {
    forall param :: s.Eval(param) == len * MixedRadix.Product(Evals(storage, param)[j..])
  }

  lemma FirstStride(storage: seq<DimSize>, stride: DimSize, len: nat)
    requires stride == DimSize(len, [])
    ensures IsStride(storage, len, |storage|, stride)
  {
    forall param ensures stride.Eval(param) == len * MixedRadix.Product(Evals(storage, param)[|storage|..]) {
      assert Evals(storage, param)[|storage|..] == [];
    }
  }

  function Evals(sizes: seq<DimSize>, param: nat -> nat): seq<nat> {
    seq<nat>(|sizes|, k requires 0 <= k < |sizes| => sizes[k].Eval(param))
  }

  lemma StrideStep(storage: seq<DimSize>, stride: DimSize, k: nat, len: nat)
    requires k < |storage| && IsStride(storage, len, k + 1, stride)
    ensures IsStride(storage, len, k, stride.Times(storage[k]))
  {
    forall param ensures stride.Times(storage[k]).Eval(param) == len * MixedRadix.Product(Evals(storage, param)[k..]) {
      var sizes := Evals(storage, param);
      EvalTimes(stride, storage[k], param);
      assert sizes[k..][0] == sizes[k] && sizes[k..][1..] == sizes[k + 1..];
      var p := MixedRadix.Product(sizes[k + 1..]);
      Assoc(len, p, sizes[k]);
      Commute(p, sizes[k]);
    }
  }

  // ----- Addresses -----

  /** The index of each storage dimension: hidden dimensions stay at zero. */
  function Place(n: nat, exposed: seq<nat>, indexes: seq<nat>): (digits: seq<nat>)
    requires |exposed| == |indexes| && forall e :: 0 <= e < |exposed| ==> exposed[e] < n
    ensures |digits| == n
  {
    if exposed == [] then seq(n, _ => 0)
    else
      var m := |exposed| - 1;
      Place(n, exposed[..m], indexes[..m])[exposed[m] := indexes[m]]
  }

  /** The distance from the first element, index times stride over the exposed dimensions. */
  function Offset(sizes: seq<nat>, len: nat, exposed: seq<nat>, indexes: seq<nat>): nat
    requires |exposed| == |indexes| && forall e :: 0 <= e < |exposed| ==> exposed[e] < |sizes|
  {
    if exposed == [] then 0
    else
      var m := |exposed| - 1;
      Offset(sizes, len, exposed[..m], indexes[..m]) + indexes[m] * (len * MixedRadix.Product(sizes[exposed[m] + 1..]))
  }

  lemma {:induction false} PlaceHidden(n: nat, exposed: seq<nat>, indexes: seq<nat>, k: nat)
    requires |exposed| == |indexes| && forall e :: 0 <= e < |exposed| ==> exposed[e] < n
    requires k < n && k !in exposed
    ensures Place(n, exposed, indexes)[k] == 0
  {
    if exposed != [] {
      var m := |exposed| - 1;
      PlaceHidden(n, exposed[..m], indexes[..m], k);
    }
  }

  lemma {:induction false} PlaceShown(n: nat, exposed: seq<nat>, indexes: seq<nat>, e: nat)
    requires |exposed| == |indexes| && (forall e :: 0 <= e < |exposed| ==> exposed[e] < n) && e < |exposed|
    requires forall e, f :: 0 <= e < f < |exposed| ==> exposed[e] != exposed[f]
    ensures Place(n, exposed, indexes)[exposed[e]] == indexes[e]
  {
    var m := |exposed| - 1;
    if e < m {
      PlaceShown(n, exposed[..m], indexes[..m], e);
    }
  }

  lemma {:induction false} RankUpdate(sizes: seq<nat>, digits: seq<nat>, k: nat, i: nat)
    requires |digits| == |sizes| && k < |sizes| && digits[k] == 0
    ensures MixedRadix.Rank(sizes, digits[k := i]) == MixedRadix.Rank(sizes, digits) + i * MixedRadix.Product(sizes[k + 1..])
    decreases k
  {
    if k == 0 {
      assert digits[0 := i][1..] == digits[1..];
    } else {
      assert digits[k := i][1..] == digits[1..][k - 1 := i];
      assert sizes[1..][k..] == sizes[k + 1..];
      RankUpdate(sizes[1..], digits[1..], k - 1, i);
    }
  }

  lemma {:induction false} RankZero(sizes: seq<nat>, digits: seq<nat>)
    requires |digits| == |sizes| && forall k :: 0 <= k < |digits| ==> digits[k] == 0
    ensures MixedRadix.Rank(sizes, digits) == 0
  {
    if sizes != [] {
      RankZero(sizes[1..], digits[1..]);
    }
  }

  /** Distinct dimensions of a storage of `n` dimensions. */
  ghost predicate Exposed(n: nat, exposed: seq<nat>) {
    && (forall e :: 0 <= e < |exposed| ==> exposed[e] < n)
    && (forall e, f :: 0 <= e < f < |exposed| ==> exposed[e] != exposed[f])
  }

  lemma ExposedPrefix(n: nat, exposed: seq<nat>, m: nat)
    requires Exposed(n, exposed) && m + 1 == |exposed|
    ensures Exposed(n, exposed[..m]) && exposed[m] < n && exposed[m] !in exposed[..m]
  {
  }

  /** The offset is the element size times the number the indexes write in the storage. */
  lemma {:induction false} OffsetIsRank(sizes: seq<nat>, len: nat, exposed: seq<nat>, indexes: seq<nat>)
    requires |exposed| == |indexes| && Exposed(|sizes|, exposed)
    ensures Offset(sizes, len, exposed, indexes) == len * MixedRadix.Rank(sizes, Place(|sizes|, exposed, indexes))
    decreases |exposed|
  {
    if exposed == [] {
      RankZero(sizes, Place(|sizes|, exposed, indexes));
    } else {
      var m := |exposed| - 1;
      ExposedPrefix(|sizes|, exposed, m);
      OffsetIsRank(sizes, len, exposed[..m], indexes[..m]);
      LastOffset(sizes, len, exposed[..m], indexes[..m], exposed[m], indexes[m]);
    }
  }

  lemma LastOffset(sizes: seq<nat>, len: nat, exposed: seq<nat>, indexes: seq<nat>, k: nat, i: nat)
    requires |exposed| == |indexes| && Exposed(|sizes|, exposed) && k < |sizes| && k !in exposed
    ensures
      var before := Place(|sizes|, exposed, indexes);
      len * MixedRadix.Rank(sizes, before[k := i]) ==
      len * MixedRadix.Rank(sizes, before) + i * (len * MixedRadix.Product(sizes[k + 1..]))
  {
    var before := Place(|sizes|, exposed, indexes);
    PlaceHidden(|sizes|, exposed, indexes, k);
    RankUpdate(sizes, before, k, i);
    OffsetStep(len, MixedRadix.Rank(sizes, before), MixedRadix.Rank(sizes, before[k := i]), i, MixedRadix.Product(sizes[k + 1..]));
  }

  lemma OffsetStep(len: nat, r: nat, r': nat, i: nat, p: nat)
    requires r' == r + i * p
    ensures len * r' == len * r + i * (len * p)
  {
    Swap(i, len, p);
    Distr(len, r, i * p);
  }

  ghost predicate InRange(sizes: seq<nat>, exposed: seq<nat>, indexes: seq<nat>) {
    && |exposed| == |indexes| && Exposed(|sizes|, exposed)
    && (forall e :: 0 <= e < |exposed| ==> indexes[e] < sizes[exposed[e]])
    && (forall k :: 0 <= k < |sizes| ==> sizes[k] > 0)
  }

  lemma {:induction false} PlaceInRange(sizes: seq<nat>, exposed: seq<nat>, indexes: seq<nat>)
    requires InRange(sizes, exposed, indexes)
    ensures MixedRadix.Digits(sizes, Place(|sizes|, exposed, indexes))
  {
    if exposed != [] {
      var m := |exposed| - 1;
      PlaceInRange(sizes, exposed[..m], indexes[..m]);
    }
  }

  /** Every element lies inside the array, at a multiple of the element size. */
  lemma ElementInBounds(sizes: seq<nat>, len: nat, exposed: seq<nat>, indexes: seq<nat>)
    requires InRange(sizes, exposed, indexes)
    ensures Divides(len, Offset(sizes, len, exposed, indexes))
    ensures Offset(sizes, len, exposed, indexes) + len <= len * MixedRadix.Product(sizes)
  {
    OffsetIsRank(sizes, len, exposed, indexes);
    PlaceInRange(sizes, exposed, indexes);
    var digits := Place(|sizes|, exposed, indexes);
    MixedRadix.RankBound(sizes, digits);
    MixedRadix.MulGap(MixedRadix.Rank(sizes, digits), MixedRadix.Product(sizes), len);
    Commute(len, MixedRadix.Rank(sizes, digits));
    Commute(len, MixedRadix.Product(sizes));
  }

  /** Different elements have different addresses, whichever dimensions were transposed or hidden. */
  lemma ElementsApart(sizes: seq<nat>, len: nat, exposed: seq<nat>, a: seq<nat>, b: seq<nat>)
    requires len > 0 && InRange(sizes, exposed, a) && InRange(sizes, exposed, b)
    requires Offset(sizes, len, exposed, a) == Offset(sizes, len, exposed, b)
    ensures a == b
  {
    OffsetIsRank(sizes, len, exposed, a);
    OffsetIsRank(sizes, len, exposed, b);
    PlaceInRange(sizes, exposed, a);
    PlaceInRange(sizes, exposed, b);
    var x, y := Place(|sizes|, exposed, a), Place(|sizes|, exposed, b);
    Cancel(len, MixedRadix.Rank(sizes, x), MixedRadix.Rank(sizes, y));
    MixedRadix.RankInjective(sizes, x, y);
    forall e | 0 <= e < |exposed| ensures a[e] == b[e] {
      PlaceShown(|sizes|, exposed, a, e);
      PlaceShown(|sizes|, exposed, b, e);
    }
  }
}
