/** The registers of variables instantiated along several dimensions. */
module VariableNaming {
  import opened Wrappers
  import MixedRadix

  /** How an index of the array of names is found: from a dimension, or always the last one. */
  datatype NameIndex = FromDim(dim: nat) | Last

  /** A shared array of names, and how this variable indexes it. */
  datatype VariableNames<T> = VariableNames(indexes: seq<NameIndex>, sizes: seq<nat>, names: seq<T>) {
    ghost predicate Valid() {
      && |indexes| == |sizes| && |names| == MixedRadix.Product(sizes)
      && forall k :: 0 <= k < |sizes| ==> sizes[k] > 0
    }
  }

  /** The index each dimension is at, if it is inside it. */
  type Lookup = nat -> Option<nat>

  function LastIndex(size: nat): nat {
    if size == 0 then 0 else size - 1
  }

  function IndexAt(index: NameIndex, size: nat, lookup: Lookup): nat {
    match index
    case Last => LastIndex(size)
    case FromDim(dim) => if lookup(dim).Some? then lookup(dim).value else LastIndex(size)
  }

  ghost predicate InBounds<T>(v: VariableNames<T>, lookup: Lookup) {
    v.Valid() && forall k :: 0 <= k < |v.sizes| ==> IndexAt(v.indexes[k], v.sizes[k], lookup) < v.sizes[k]
  }

  function Position<T>(v: VariableNames<T>, lookup: Lookup): (digits: seq<nat>)
    requires |v.indexes| == |v.sizes|
    ensures |digits| == |v.sizes|
  {
    seq<nat>(|v.sizes|, k requires 0 <= k < |v.sizes| => IndexAt(v.indexes[k], v.sizes[k], lookup))
  }

  lemma PositionInBounds<T>(v: VariableNames<T>, lookup: Lookup)
    requires InBounds(v, lookup)
    ensures MixedRadix.Digits(v.sizes, Position(v, lookup))
    ensures MixedRadix.Rank(v.sizes, Position(v, lookup)) < |v.names|
  {
    MixedRadix.RankBound(v.sizes, Position(v, lookup));
  }

  function GetName<T>(v: VariableNames<T>, lookup: Lookup): T
    requires InBounds(v, lookup)
  {
    PositionInBounds(v, lookup);
    v.names[MixedRadix.Rank(v.sizes, Position(v, lookup))]
  }

  /** Fresh names for every tuple of indexes. */
  function New<T>(dims: seq<(nat, nat)>, names: nat -> T): VariableNames<T> {
    var sizes := seq<nat>(|dims|, k requires 0 <= k < |dims| => dims[k].1);
    VariableNames(seq(|dims|, k requires 0 <= k < |dims| => FromDim(dims[k].0)), sizes, seq<T>(MixedRadix.Product(sizes), (i: nat) => names(i)))
  }

  /** The dimensions of another variable, mapped to those of its alias; a dimension mapped to nothing takes the last instance. */
  type Mapping = map<nat, Option<nat>>

  function AliasIndex(index: NameIndex, mapping: Mapping): NameIndex {
    match index
    case Last => Last
    case FromDim(dim) =>
      if dim !in mapping then FromDim(dim)
      else match mapping[dim] case None => Last case Some(to) => FromDim(to)
  }

  function CreateAlias<T>(v: VariableNames<T>, mapping: Mapping): VariableNames<T> {
    v.(indexes := seq(|v.indexes|, k requires 0 <= k < |v.indexes| => AliasIndex(v.indexes[k], mapping)))
  }

  /** The indexes of the alias, seen from the other variable. */
  function PullBack(mapping: Mapping, lookup: Lookup): Lookup {
    (dim: nat) =>
      if dim !in mapping then lookup(dim)
      else match mapping[dim] case None => None case Some(to) => lookup(to)
  }

  lemma SameIndex(index: NameIndex, size: nat, mapping: Mapping, lookup: Lookup)
    ensures IndexAt(AliasIndex(index, mapping), size, lookup) == IndexAt(index, size, PullBack(mapping, lookup))
  {
  }

  /** An alias names the register of the other variable at the pulled back indexes. */
  lemma AliasSharesName<T>(v: VariableNames<T>, mapping: Mapping, lookup: Lookup)
    requires InBounds(v, PullBack(mapping, lookup))
    ensures InBounds(CreateAlias(v, mapping), lookup)
    ensures GetName(CreateAlias(v, mapping), lookup) == GetName(v, PullBack(mapping, lookup))
  {
    var alias := CreateAlias(v, mapping);
    forall k | 0 <= k < |v.sizes|
      ensures IndexAt(alias.indexes[k], v.sizes[k], lookup) == IndexAt(v.indexes[k], v.sizes[k], PullBack(mapping, lookup))
    {
      SameIndex(v.indexes[k], v.sizes[k], mapping, lookup);
    }
    assert Position(alias, lookup) == Position(v, PullBack(mapping, lookup));
  }

  /** The names of a chain of aliases, the first mapping being that of the first alias. */
  function CreateAliases<T>(v: VariableNames<T>, mappings: seq<Mapping>): VariableNames<T> {
    if mappings == [] then v else CreateAlias(CreateAliases(v, mappings[..|mappings| - 1]), mappings[|mappings| - 1])
  }

  function PullBackAll(mappings: seq<Mapping>, lookup: Lookup): Lookup {
    if mappings == [] then lookup
    else PullBackAll(mappings[..|mappings| - 1], PullBack(mappings[|mappings| - 1], lookup))
  }

  /** However long the chain, the last alias names a register of the first variable. */
  lemma {:induction false} ChainSharesName<T>(v: VariableNames<T>, mappings: seq<Mapping>, lookup: Lookup)
    requires InBounds(v, PullBackAll(mappings, lookup))
    ensures InBounds(CreateAliases(v, mappings), lookup)
    ensures GetName(CreateAliases(v, mappings), lookup) == GetName(v, PullBackAll(mappings, lookup))
    decreases |mappings|
  {
    if mappings != [] {
      var n := |mappings| - 1;
      ChainSharesName(v, mappings[..n], PullBack(mappings[n], lookup));
      AliasSharesName(CreateAliases(v, mappings[..n]), mappings[n], lookup);
    }
  }

  lemma NewInBounds<T>(dims: seq<(nat, nat)>, names: nat -> T, lookup: Lookup)
    requires forall k :: 0 <= k < |dims| ==> dims[k].1 > 0 && (lookup(dims[k].0).Some? ==> lookup(dims[k].0).value < dims[k].1)
    ensures InBounds(New(dims, names), lookup)
  {
  }

  /** Both lookups select the same instance along every dimension. */
  ghost predicate SameInstance(dims: seq<(nat, nat)>, a: Lookup, b: Lookup) {
    forall k :: 0 <= k < |dims| ==> IndexAt(FromDim(dims[k].0), dims[k].1, a) == IndexAt(FromDim(dims[k].0), dims[k].1, b)
  }

  lemma SamePosition<T>(dims: seq<(nat, nat)>, names: nat -> T, a: Lookup, b: Lookup)
    ensures Position(New(dims, names), a) == Position(New(dims, names), b) <==> SameInstance(dims, a, b)
  {
    var v := New(dims, names);
    var x, y := Position(v, a), Position(v, b);
    forall k | 0 <= k < |dims|
      ensures x[k] == IndexAt(FromDim(dims[k].0), dims[k].1, a) && y[k] == IndexAt(FromDim(dims[k].0), dims[k].1, b)
    {
    }
  }

  lemma NameIs<T>(dims: seq<(nat, nat)>, names: nat -> T, lookup: Lookup)
    requires InBounds(New(dims, names), lookup)
    ensures
      var v := New(dims, names);
      && MixedRadix.Digits(v.sizes, Position(v, lookup))
      && GetName(v, lookup) == names(MixedRadix.Rank(v.sizes, Position(v, lookup)))
  {
    var v := New(dims, names);
    PositionInBounds(v, lookup);
    var r := MixedRadix.Rank(v.sizes, Position(v, lookup));
    assert v.names[r] == names(r);
  }

  lemma SameRank(sizes: seq<nat>, x: seq<nat>, y: seq<nat>)
    requires MixedRadix.Digits(sizes, x) && MixedRadix.Digits(sizes, y)
    ensures MixedRadix.Rank(sizes, x) == MixedRadix.Rank(sizes, y) <==> x == y
  {
    if MixedRadix.Rank(sizes, x) == MixedRadix.Rank(sizes, y) {
      MixedRadix.RankInjective(sizes, x, y);
    }
  }

  /** Two instances of a variable have the same register exactly when their indexes agree on every dimension. */
  lemma NamesDistinct<T>(dims: seq<(nat, nat)>, names: nat -> T, a: Lookup, b: Lookup)
    requires InBounds(New(dims, names), a) && InBounds(New(dims, names), b)
    requires forall i, j: nat :: names(i) == names(j) ==> i == j
    ensures GetName(New(dims, names), a) == GetName(New(dims, names), b) <==> SameInstance(dims, a, b)
  {
    var v := New(dims, names);
    NameIs(dims, names, a);
    NameIs(dims, names, b);
    SamePosition(dims, names, a, b);
    SameRank(v.sizes, Position(v, a), Position(v, b));
    var i, j := MixedRadix.Rank(v.sizes, Position(v, a)), MixedRadix.Rank(v.sizes, Position(v, b));
    assert names(i) == names(j) ==> i == j;
  }
}
