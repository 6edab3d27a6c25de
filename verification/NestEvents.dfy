/** The list of events made from instructions and dimensions, before it is sorted. */
module NestEvents {
  import opened Wrappers
  import opened Sequences
  import opened Nests

  datatype ThreadMapping = MappedOut | MappedIn | Mapped

  type MappingTable = (nat, nat) -> ThreadMapping

  /** The decisions place thread dimensions on axes, the outermost axis having the least rank. */
  ghost predicate Ranks(mapping: MappingTable, rank: nat -> int, dims: seq<Dim>) {
    forall d, e :: d in dims && e in dims ==>
      mapping(d.id, e.id) ==
      if rank(d.id) < rank(e.id) then MappedOut else if rank(d.id) > rank(e.id) then MappedIn else Mapped
  }

  // ----- Groups of thread dimensions -----

  /** The dimensions of a group share their axis, and axes increase from a group to the next. */
  ghost predicate Grouped(rank: nat -> int, groups: seq<seq<Dim>>) {
    && (forall g :: 0 <= g < |groups| ==> groups[g] != [])
    && (forall g, k :: 0 <= g < |groups| && 0 <= k < |groups[g]| ==> rank(groups[g][k].id) == rank(groups[g][0].id))
    && (forall g, h :: 0 <= g < h < |groups| ==> rank(groups[g][0].id) < rank(groups[h][0].id))
  }

  /** The number of groups on axes outside the one of `id`. */
  ghost function Position(rank: nat -> int, groups: seq<seq<Dim>>, id: nat): (p: nat)
    requires Grouped(rank, groups)
    ensures p <= |groups|
    ensures forall g :: 0 <= g < p ==> rank(groups[g][0].id) < rank(id)
    ensures p < |groups| ==> rank(groups[p][0].id) >= rank(id)
  {
    if groups == [] then 0
    else if rank(groups[|groups| - 1][0].id) < rank(id) then |groups|
    else Position(rank, groups[..|groups| - 1], id)
  }

  ghost function Positions(rank: nat -> int, groups: seq<seq<Dim>>): nat -> nat
    requires Grouped(rank, groups)
  {
    (id: nat) => if Grouped(rank, groups) then Position(rank, groups, id) else 0
  }

  lemma PositionIs(rank: nat -> int, groups: seq<seq<Dim>>, g: nat, k: nat)
    requires Grouped(rank, groups) && g < |groups| && k < |groups[g]|
    ensures Positions(rank, groups)(groups[g][k].id) == g
  {
    var p := Position(rank, groups, groups[g][k].id);
    assert rank(groups[g][k].id) == rank(groups[g][0].id);
  }

  /** Looks for the group of `d`, or for the place of a new one. */
  method FindGroup(mapping: MappingTable, groups: seq<seq<Dim>>, d: Dim, ghost rank: nat -> int, ghost dims: seq<Dim>)
    returns (found: bool, p: nat)
    requires Grouped(rank, groups) && Ranks(mapping, rank, dims) && d in dims
    requires HeadsIn(groups, dims)
    ensures if found then p < |groups| && rank(groups[p][0].id) == rank(d.id)
            else p <= |groups| && (forall g :: 0 <= g < p ==> rank(groups[g][0].id) < rank(d.id))
                 && (forall g :: p <= g < |groups| ==> rank(d.id) < rank(groups[g][0].id))
  {
    var left, right := 0, |groups|;
    while left < right
      invariant 0 <= left <= right <= |groups|
      invariant forall g :: 0 <= g < left ==> rank(groups[g][0].id) < rank(d.id)
      invariant forall g :: right <= g < |groups| ==> rank(d.id) < rank(groups[g][0].id)
    {
      var mid := left + (right - left) / 2;
      if groups[mid][0].id == d.id {
        return true, mid;
      }
      match mapping(groups[mid][0].id, d.id)
      case MappedOut => left := mid + 1;
      case MappedIn => right := mid;
      case Mapped => return true, mid;
    }
    return false, left;
  }

  lemma {:induction false} FlattenConcat<T>(a: seq<seq<T>>, b: seq<seq<T>>)
    ensures Flatten(a + b) == Flatten(a) + Flatten(b)
  {
    if b == [] {
      assert a + b == a;
      assert Flatten(a) + [] == Flatten(a);
    } else {
      var n := |b| - 1;
      assert (a + b)[..|a + b| - 1] == a + b[..n];
      FlattenConcat(a, b[..n]);
      assert Flatten(a) + (Flatten(b[..n]) + b[n]) == (Flatten(a) + Flatten(b[..n])) + b[n];
    }
  }

  lemma FlattenSplit<T>(a: seq<seq<T>>, part: seq<T>, b: seq<seq<T>>)
    ensures Flatten(a + [part] + b) == Flatten(a) + part + Flatten(b)
  {
    FlattenConcat(a + [part], b);
    FlattenConcat(a, [part]);
    assert Flatten([part]) == part;
  }

  ghost predicate HeadsIn(groups: seq<seq<Dim>>, dims: seq<Dim>) {
    forall g :: 0 <= g < |groups| ==> groups[g] != [] && groups[g][0] in dims
  }

  lemma JoinGroup(rank: nat -> int, groups: seq<seq<Dim>>, p: nat, d: Dim, joined: seq<seq<Dim>>, dims: seq<Dim>)
    requires Grouped(rank, groups) && p < |groups| && rank(groups[p][0].id) == rank(d.id) && HeadsIn(groups, dims)
    requires joined == groups[p := groups[p] + [d]]
    ensures Grouped(rank, joined) && HeadsIn(joined, dims)
  {
    forall g | 0 <= g < |joined| ensures joined[g] != [] && joined[g][0] == groups[g][0] {
    }
  }

  lemma JoinFlattens(groups: seq<seq<Dim>>, p: nat, d: Dim)
    requires p < |groups|
    ensures multiset(Flatten(groups[p := groups[p] + [d]])) == multiset(Flatten(groups)) + multiset{d}
  {
    assert groups == groups[..p] + [groups[p]] + groups[p + 1..];
    assert groups[p := groups[p] + [d]] == groups[..p] + [groups[p] + [d]] + groups[p + 1..];
    FlattenSplit(groups[..p], groups[p], groups[p + 1..]);
    FlattenSplit(groups[..p], groups[p] + [d], groups[p + 1..]);
  }

  lemma NewGroup(rank: nat -> int, groups: seq<seq<Dim>>, p: nat, d: Dim, more: seq<seq<Dim>>, dims: seq<Dim>)
    requires Grouped(rank, groups) && p <= |groups| && more == InsertAt(groups, p, [d]) && HeadsIn(groups, dims) && d in dims
    requires forall g :: 0 <= g < p ==> rank(groups[g][0].id) < rank(d.id)
    requires forall g :: p <= g < |groups| ==> rank(d.id) < rank(groups[g][0].id)
    ensures Grouped(rank, more) && HeadsIn(more, dims)
  {
    forall g, h | 0 <= g < h < |more| ensures rank(more[g][0].id) < rank(more[h][0].id) {
      if g == p {
        assert more[h] == groups[h - 1];
      } else if h == p {
        assert more[g] == groups[g];
      }
    }
  }

  lemma InsertBetween(groups: seq<seq<Dim>>, p: nat, group: seq<Dim>)
    requires p <= |groups|
    ensures InsertAt(groups, p, group) == groups[..p] + [group] + groups[p..]
  {
  }

  lemma OneMore(a: seq<Dim>, d: Dim, b: seq<Dim>)
    ensures multiset(a + [d] + b) == multiset(a + b) + multiset{d}
  {
  }

  lemma NewFlattens(groups: seq<seq<Dim>>, p: nat, d: Dim)
    requires p <= |groups|
    ensures multiset(Flatten(InsertAt(groups, p, [d]))) == multiset(Flatten(groups)) + multiset{d}
  {
    var a, b := groups[..p], groups[p..];
    assert groups == a + b;
    InsertBetween(groups, p, [d]);
    FlattenConcat(a, b);
    FlattenSplit(a, [d], b);
    OneMore(Flatten(a), d, Flatten(b));
  }

  /** Groups the thread dimensions by axis. */
  method GroupThreads(mapping: MappingTable, dims: seq<Dim>, ghost rank: nat -> int) returns (groups: seq<seq<Dim>>)
    requires Ranks(mapping, rank, dims)
    ensures Grouped(rank, groups) && multiset(Flatten(groups)) == multiset(dims)
  {
    groups := [];
    for k := 0 to |dims|
      invariant Grouped(rank, groups) && HeadsIn(groups, dims) && multiset(Flatten(groups)) == multiset(dims[..k])
    {
      var found, p := FindGroup(mapping, groups, dims[k], rank, dims);
      assert dims[..k + 1] == dims[..k] + [dims[k]];
      groups := Place(groups, dims[k], found, p, rank, dims);
    }
    assert dims[..|dims|] == dims;
  }

  /** Adds `d` to the group at `p`, or makes a group for it there. */
  method Place(groups: seq<seq<Dim>>, d: Dim, found: bool, p: nat, ghost rank: nat -> int, ghost dims: seq<Dim>)
    returns (placed: seq<seq<Dim>>)
    requires Grouped(rank, groups) && HeadsIn(groups, dims) && d in dims
    requires if found then p < |groups| && rank(groups[p][0].id) == rank(d.id)
             else p <= |groups| && (forall g :: 0 <= g < p ==> rank(groups[g][0].id) < rank(d.id))
                  && (forall g :: p <= g < |groups| ==> rank(d.id) < rank(groups[g][0].id))
    ensures Grouped(rank, placed) && HeadsIn(placed, dims)
    ensures multiset(Flatten(placed)) == multiset(Flatten(groups)) + multiset{d}
  {
    if found {
      placed := groups[p := groups[p] + [d]];
      JoinGroup(rank, groups, p, d, placed, dims);
      JoinFlattens(groups, p, d);
    } else {
      placed := InsertAt(groups, p, [d]);
      NewGroup(rank, groups, p, d, placed, dims);
      NewFlattens(groups, p, d);
    }
  }

  // ----- Block dimensions -----

  /** `d` is placed before `e`: the same dimension, or one outside it; nothing where the program panics. */
  function CmpBlocks(order: OrderTable, d: Dim, e: Dim): Option<Ordering> {
    if d.id == e.id then Some(Equal)
    else
      match order(DimStmt(d.id), DimStmt(e.id))
      case Outer => Some(Less)
      case Inner => Some(Greater)
      case _ => None
  }

  /** The decisions nest the dimensions in this order. */
  ghost predicate OutermostFirst(order: OrderTable, nest: seq<Dim>) {
    forall i, j :: 0 <= i < j < |nest| ==>
      && nest[i].id != nest[j].id
      && order(DimStmt(nest[i].id), DimStmt(nest[j].id)) == Outer && order(DimStmt(nest[j].id), DimStmt(nest[i].id)) == Inner
  }

  lemma OutermostIsFirst(order: OrderTable, blocks: seq<Dim>, nest: seq<Dim>, k: nat)
    requires OutermostFirst(order, nest) && multiset(blocks) == multiset(nest) && k < |blocks|
    ensures nest != []
    ensures (forall j :: 0 <= j < |blocks| ==> CmpBlocks(order, blocks[k], blocks[j]).Some? && CmpBlocks(order, blocks[k], blocks[j]) != Some(Greater))
            <==> blocks[k] == nest[0]
  {
    assert |blocks| == |multiset(blocks)| == |multiset(nest)| == |nest|;
    assert blocks[k] in multiset(nest) && nest[0] in multiset(blocks);
    var m := Occurrence(nest, blocks[k]);
    var first := Occurrence(blocks, nest[0]);
    if m == 0 {
      forall j | 0 <= j < |blocks|
        ensures CmpBlocks(order, blocks[k], blocks[j]).Some? && CmpBlocks(order, blocks[k], blocks[j]) != Some(Greater)
      {
        assert blocks[j] in multiset(nest);
        var i := Occurrence(nest, blocks[j]);
      }
    }
  }

  lemma TailOutermost(order: OrderTable, nest: seq<Dim>)
    requires OutermostFirst(order, nest) && nest != []
    ensures OutermostFirst(order, nest[1..])
  {
    forall i, j | 0 <= i < j < |nest[1..]|
      ensures
        var d, e := nest[1..][i], nest[1..][j];
        d.id != e.id && order(DimStmt(d.id), DimStmt(e.id)) == Outer && order(DimStmt(e.id), DimStmt(d.id)) == Inner
    {
      assert nest[1..][i] == nest[i + 1] && nest[1..][j] == nest[j + 1];
    }
  }

  /** A sort of the block dimensions, in place of the one of the standard library. */
  method SortBlocks(order: OrderTable, blocks: seq<Dim>, ghost nest: seq<Dim>) returns (sorted: seq<Dim>)
    requires OutermostFirst(order, nest) && multiset(blocks) == multiset(nest)
    ensures sorted == nest
    decreases |blocks|
  {
    assert |blocks| == |multiset(blocks)| == |multiset(nest)| == |nest|;
    if blocks == [] {
      return [];
    }
    assert nest[0] in multiset(blocks);
    ghost var first := Occurrence(blocks, nest[0]);
    OutermostIsFirst(order, blocks, nest, first);
    var k :| 0 <= k < |blocks| && forall j :: 0 <= j < |blocks| ==>
               CmpBlocks(order, blocks[k], blocks[j]).Some? && CmpBlocks(order, blocks[k], blocks[j]) != Some(Greater);
    OutermostIsFirst(order, blocks, nest, k);
    assert nest == [nest[0]] + nest[1..];
    WithoutCounts(blocks, k);
    assert multiset(Without(blocks, k)) == multiset(blocks) - multiset{nest[0]} == multiset(nest[1..]);
    TailOutermost(order, nest);
    var rest := SortBlocks(order, Without(blocks, k), nest[1..]);
    sorted := [blocks[k]] + rest;
  }

  /** No dimension comes before one outside it. */
  ghost predicate SortedBlocks(order: OrderTable, sorted: seq<Dim>) {
    forall i, j :: 0 <= i < j < |sorted| ==> CmpBlocks(order, sorted[i], sorted[j]).Some? && CmpBlocks(order, sorted[i], sorted[j]) != Some(Greater)
  }

  lemma TailSorted(order: OrderTable, sorted: seq<Dim>)
    requires SortedBlocks(order, sorted) && sorted != []
    ensures SortedBlocks(order, sorted[1..])
  {
  }

  lemma Rejoin<T>(s: seq<T>, t: seq<T>)
    requires s != [] && t != [] && s[0] == t[0] && s[1..] == t[1..]
    ensures s == t
  {
    assert s == [s[0]] + s[1..] && t == [t[0]] + t[1..];
  }

  lemma FirstSorted(order: OrderTable, sorted: seq<Dim>, nest: seq<Dim>)
    requires OutermostFirst(order, nest) && multiset(sorted) == multiset(nest) && SortedBlocks(order, sorted) && sorted != []
    ensures nest != [] && sorted[0] == nest[0]
  {
    assert CmpBlocks(order, sorted[0], sorted[0]) == Some(Equal);
    OutermostIsFirst(order, sorted, nest, 0);
  }

  /** Whatever the algorithm, a sorted list of the block dimensions is their nest. */
  lemma {:induction false} SortedBlocksUnique(order: OrderTable, sorted: seq<Dim>, nest: seq<Dim>)
    requires OutermostFirst(order, nest) && multiset(sorted) == multiset(nest) && SortedBlocks(order, sorted)
    ensures sorted == nest
    decreases |sorted|
  {
    assert |sorted| == |multiset(sorted)| == |multiset(nest)| == |nest|;
    if sorted != [] {
      FirstSorted(order, sorted, nest);
      TailCounts(sorted, nest[0]);
      TailCounts(nest, nest[0]);
      TailOutermost(order, nest);
      TailSorted(order, sorted);
      SortedBlocksUnique(order, sorted[1..], nest[1..]);
      Rejoin(sorted, nest);
    }
  }
}
