/** Increments of the tiles of a logical dimension, and the address they lead to. */
module TiledAddresses {
  import opened Divisibility
  import opened PartialSizes
  import opened Products
  import MixedRadix

  /** The dimensions inside number `j`. */
  function Inner(dims: seq<nat>, j: nat): set<nat>
    requires j < |dims|
  {
    set k | j < k < |dims| :: dims[k]
  }

  /** The distance between two iterations of tile `j`: the stride times the sizes of the tiles inside it. */
  function TileStride(stride: Expr, dims: seq<nat>, j: nat): Expr
    requires j < |dims|
  {
    stride.(dims := Inner(dims, j))
  }

  /** A logical dimension, its tiles given outermost first: the inner ones have a size of their own. */
  ghost predicate Tiled(dims: seq<nat>, sizeOf: nat -> Expr) {
    && (forall i, j :: 0 <= i < j < |dims| ==> dims[i] != dims[j])
    && (forall j :: 1 <= j < |dims| ==> sizeOf(dims[j]) == Expr(1, [], {dims[j]}, {}))
  }

  /** Walks from the innermost tile, multiplying the size of each of them. */
  method RealIncrements(stride: Expr, dims: seq<nat>, sizeOf: nat -> Expr) returns (increments: seq<Expr>, size: Expr)
    requires Tiled(dims, sizeOf) && stride.dims == {} && stride.divisors == {} && dims != []
    ensures |increments| == |dims| && forall j :: 0 <= j < |dims| ==> increments[j] == TileStride(stride, dims, j)
    ensures size == Product(TileStride(stride, dims, 0), sizeOf(dims[0]))
  {
    size := stride;
    increments := [];
    assert Inner(dims, |dims| - 1) == {};
    for j := |dims| downto 0
      invariant |increments| == |dims| - j
      invariant forall i :: j <= i < |dims| ==> increments[i - j] == TileStride(stride, dims, i)
      invariant j > 0 ==> size == TileStride(stride, dims, j - 1)
      invariant j == 0 ==> size == Product(TileStride(stride, dims, 0), sizeOf(dims[0]))
    {
      increments := [size] + increments;
      if j > 0 {
        TileStep(stride, dims, sizeOf, j);
      }
      size := Product(size, sizeOf(dims[j]));
    }
  }

  lemma TileStep(stride: Expr, dims: seq<nat>, sizeOf: nat -> Expr, j: nat)
    requires Tiled(dims, sizeOf) && stride.divisors == {} && 0 < j < |dims|
    ensures Product(TileStride(stride, dims, j), sizeOf(dims[j])) == TileStride(stride, dims, j - 1)
  {
    assert Inner(dims, j) + {dims[j]} == Inner(dims, j - 1);
    assert stride.params + [] == stride.params;
  }

  /** The outermost tile takes what the others leave of the whole size. */
  function OuterSize(total: Expr, dims: seq<nat>): Expr
    requires dims != []
  {
    Simplify(total.(divisors := total.divisors + Inner(dims, 0)))
  }

  /** The sizes of the tiles recombine: the increment of the next dimension is the stride times the whole size. */
  lemma SizesRecombine(stride: Expr, total: Expr, dims: seq<nat>)
    requires dims != [] && stride.dims == {} && stride.divisors == {} && total.dims == {} && total.divisors == {}
    ensures Product(TileStride(stride, dims, 0), OuterSize(total, dims)) ==
            Expr(stride.factor * total.factor, stride.params + total.params, {}, {})
  {
  }

  // ----- Addresses -----

  function Sum(increments: seq<nat>, indexes: seq<nat>): nat
    requires |increments| == |indexes|
  {
    if increments == [] then 0 else indexes[0] * increments[0] + Sum(increments[1..], indexes[1..])
  }

  function Sizes(env: Env, dims: seq<nat>): seq<nat> {
    seq<nat>(|dims|, j requires 0 <= j < |dims| => env.size(dims[j]))
  }

  /** The value of the increment of each tile. */
  ghost function IncrementValues(stride: Expr, dims: seq<nat>, env: Env): seq<nat> {
    seq<nat>(|dims|, j requires 0 <= j < |dims| => Num(TileStride(stride, dims, j), env))
  }

  lemma {:induction false} InnerProd(env: Env, dims: seq<nat>, j: nat)
    requires j < |dims| && forall i, k :: 0 <= i < k < |dims| ==> dims[i] != dims[k]
    ensures Prod(env.size, Inner(dims, j)) == MixedRadix.Product(Sizes(env, dims)[j + 1..])
    decreases |dims| - j
  {
    var sizes := Sizes(env, dims);
    if j == |dims| - 1 {
      assert Inner(dims, j) == {} && sizes[j + 1..] == [];
    } else {
      InnerProd(env, dims, j + 1);
      assert Inner(dims, j) - {dims[j + 1]} == Inner(dims, j + 1);
      ProdRemove(env.size, Inner(dims, j), dims[j + 1]);
      assert sizes[j + 1..][0] == sizes[j + 1] && sizes[j + 1..][1..] == sizes[j + 2..];
    }
  }

  lemma {:induction false} SumIsRank(increments: seq<nat>, sizes: seq<nat>, indexes: seq<nat>, stride: nat)
    requires |increments| == |sizes| == |indexes|
    requires forall j :: 0 <= j < |sizes| ==> increments[j] == stride * MixedRadix.Product(sizes[j + 1..])
    ensures Sum(increments, indexes) == stride * MixedRadix.Rank(sizes, indexes)
  {
    if sizes != [] {
      forall j | 0 <= j < |sizes[1..]| ensures increments[1..][j] == stride * MixedRadix.Product(sizes[1..][j + 1..]) {
        assert sizes[1..][j + 1..] == sizes[j + 1 + 1..];
      }
      SumIsRank(increments[1..], sizes[1..], indexes[1..], stride);
      var p, r := MixedRadix.Product(sizes[1..]), MixedRadix.Rank(sizes[1..], indexes[1..]);
      Swap(indexes[0], stride, p);
      Distr(stride, indexes[0] * p, r);
    }
  }

  /** The tiles move the address by the stride times the index they write together. */
  lemma TiledAddress(stride: Expr, dims: seq<nat>, sizeOf: nat -> Expr, env: Env, indexes: seq<nat>)
    requires Tiled(dims, sizeOf) && stride.dims == {} && stride.divisors == {} && |indexes| == |dims|
    ensures Sum(IncrementValues(stride, dims, env), indexes) == Num(stride, env) * MixedRadix.Rank(Sizes(env, dims), indexes)
  {
    var increments, sizes := IncrementValues(stride, dims, env), Sizes(env, dims);
    var k := stride.factor * Times(env.param, stride.params);
    assert Prod(env.size, {}) == 1 && Num(stride, env) == k;
    forall j | 0 <= j < |dims| ensures increments[j] == Num(stride, env) * MixedRadix.Product(sizes[j + 1..]) {
      InnerProd(env, dims, j);
    }
    SumIsRank(increments, sizes, indexes, Num(stride, env));
  }

  /** Every index of the logical dimension is written by exactly one tuple of tile indexes. */
  lemma TilesCoverOnce(env: Env, dims: seq<nat>, index: nat)
    requires index < MixedRadix.Product(Sizes(env, dims))
    ensures exists indexes :: MixedRadix.Digits(Sizes(env, dims), indexes) && MixedRadix.Rank(Sizes(env, dims), indexes) == index
    ensures forall a, b | MixedRadix.Digits(Sizes(env, dims), a) && MixedRadix.Digits(Sizes(env, dims), b) ::
              MixedRadix.Rank(Sizes(env, dims), a) == MixedRadix.Rank(Sizes(env, dims), b) ==> a == b
  {
    var sizes := Sizes(env, dims);
    MixedRadix.RankUnrank(sizes, index);
    assert MixedRadix.Rank(sizes, MixedRadix.Unrank(sizes, index)) == index;
    forall a, b | MixedRadix.Digits(sizes, a) && MixedRadix.Digits(sizes, b) && MixedRadix.Rank(sizes, a) == MixedRadix.Rank(sizes, b)
      ensures a == b
    {
      MixedRadix.RankInjective(sizes, a, b);
    }
  }
}
