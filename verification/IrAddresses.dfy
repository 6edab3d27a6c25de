/** The addresses of the accesses that lowering a layout makes. */
module IrAddresses {
  import opened Wrappers
  import opened Sequences
  import opened SparseVecs
  import opened IrBodies
  import opened IrInvariants
  import opened IrRuns
  import opened MixedRadix
  import Divisibility

  /** The value of an increment, for elements of `elem` bytes and the sizes of the dimensions. */
  function StepOf(elem: nat, size: nat -> nat, e: Extent): nat {
    match e
    case Given(name) => name
    case Elements(_, inner) => elem * Product(Map(size, inner))
  }

  /** Index times increment, over all the dimensions of a variable. */
  function Offset(elem: nat, size: nat -> nat, index: nat -> nat, incs: seq<Increment>): nat {
    if incs == [] then 0
    else
      var last := incs[|incs| - 1];
      Offset(elem, size, index, incs[..|incs| - 1]) + index(last.dim) * StepOf(elem, size, last.step)
  }

  lemma MapTail(f: nat -> nat, dims: seq<nat>)
    requires dims != []
    ensures Map(f, dims)[1..] == Map(f, dims[1..]) && Map(f, dims)[0] == f(dims[0])
  {
  }

  /** The offset of an access is the number its indexes write, in elements. */
  lemma {:induction false} OffsetIsRank(elem: nat, size: nat -> nat, index: nat -> nat, mem: nat, dims: seq<nat>)
    ensures Offset(elem, size, index, Increments(mem, dims)) == elem * Rank(Map(size, dims), Map(index, dims))
  {
    if dims != [] {
      var rest := dims[1..];
      OffsetIsRank(elem, size, index, mem, rest);
      OffsetLast(elem, size, index, mem, dims);
      RankMap(size, index, dims);
      LeadingDigit(elem, index(dims[0]), Product(Map(size, rest)), Rank(Map(size, rest), Map(index, rest)));
    }
  }

  lemma OffsetLast(elem: nat, size: nat -> nat, index: nat -> nat, mem: nat, dims: seq<nat>)
    requires dims != []
    ensures Offset(elem, size, index, Increments(mem, dims)) ==
            Offset(elem, size, index, Increments(mem, dims[1..])) + index(dims[0]) * (elem * Product(Map(size, dims[1..])))
  {
    var incs, last := Increments(mem, dims), Increment(dims[0], Elements(mem, dims[1..]));
    assert incs[..|incs| - 1] == Increments(mem, dims[1..]) && incs[|incs| - 1] == last;
    assert StepOf(elem, size, last.step) == elem * Product(Map(size, dims[1..]));
  }

  lemma RankMap(size: nat -> nat, index: nat -> nat, dims: seq<nat>)
    requires dims != []
    ensures Rank(Map(size, dims), Map(index, dims)) ==
            index(dims[0]) * Product(Map(size, dims[1..])) + Rank(Map(size, dims[1..]), Map(index, dims[1..]))
  {
    MapTail(size, dims);
    MapTail(index, dims);
  }

  lemma LeadingDigit(elem: nat, x: nat, below: nat, r: nat)
    ensures elem * r + x * (elem * below) == elem * (x * below + r)
  {
    Divisibility.Swap(x, elem, below);
    Divisibility.Distr(elem, x * below, r);
  }

  ghost predicate InRange(size: nat -> nat, index: nat -> nat, dims: seq<nat>) {
    forall d :: d in dims ==> index(d) < size(d)
  }

  /** The sizes of the dimensions a value is stored and loaded along agree pairwise. */
  ghost predicate SameSizes(size: nat -> nat, st: seq<nat>, ld: seq<nat>) {
    |st| == |ld| && forall k :: 0 <= k < |st| ==> size(st[k]) == size(ld[k])
  }

  /** Two accesses meet exactly when they have the same indexes, and stay inside the block. */
  lemma SameAddressIff(elem: nat, size: nat -> nat, i: nat -> nat, j: nat -> nat, mem: nat, st: seq<nat>, ld: seq<nat>)
    requires elem > 0 && SameSizes(size, st, ld) && InRange(size, i, st) && InRange(size, j, ld)
    ensures Offset(elem, size, i, Increments(mem, st)) == Offset(elem, size, j, Increments(mem, ld)) <==>
            forall k :: 0 <= k < |st| ==> i(st[k]) == j(ld[k])
    ensures Offset(elem, size, i, Increments(mem, st)) + elem <= elem * Product(Map(size, st))
  {
    var sizes, a, c := Map(size, st), Map(i, st), Map(j, ld);
    assert sizes == Map(size, ld);
    OffsetIsRank(elem, size, i, mem, st);
    OffsetIsRank(elem, size, j, mem, ld);
    DigitsInRange(size, i, st);
    DigitsInRange(size, j, ld);
    RanksMeet(elem, sizes, a, c);
    assert (forall k :: 0 <= k < |st| ==> i(st[k]) == j(ld[k])) <==> a == c by {
      assert forall k :: 0 <= k < |st| ==> a[k] == i(st[k]) && c[k] == j(ld[k]);
    }
  }

  lemma DigitsInRange(size: nat -> nat, index: nat -> nat, dims: seq<nat>)
    requires InRange(size, index, dims)
    ensures Digits(Map(size, dims), Map(index, dims))
  {
    assert forall k :: 0 <= k < |dims| ==> dims[k] in dims;
  }

  lemma RanksMeet(elem: nat, sizes: seq<nat>, a: seq<nat>, c: seq<nat>)
    requires elem > 0 && Digits(sizes, a) && Digits(sizes, c)
    ensures elem * Rank(sizes, a) == elem * Rank(sizes, c) <==> a == c
    ensures elem * Rank(sizes, a) + elem <= elem * Product(sizes)
  {
    var r, s, p := Rank(sizes, a), Rank(sizes, c), Product(sizes);
    RankBound(sizes, a);
    MulGap(r, p, elem);
    Divisibility.Commute(elem, r);
    Divisibility.Commute(elem, s);
    Divisibility.Commute(elem, p);
    if r == s {
      RankInjective(sizes, a, c);
    } else if r < s {
      MulGap(r, s, elem);
    } else {
      MulGap(s, r, elem);
    }
  }

  /**
   Once a layout is lowered, the store and the load of the block go through memory: a load reads
   the address a store wrote if and only if their indexes agree along the dimensions of the layout.
   */
  lemma LoadReadsItsStore(
      b: Body, id: nat, st: seq<nat>, ld: seq<nat>, elem: nat, size: nat -> nat, i: nat -> nat, j: nat -> nat)
    requires Inv(b) && LowerLayout(b, id, st, ld).Done?
    requires elem > 0 && SameSizes(size, st, ld) && InRange(size, i, st) && InRange(size, j, ld)
    ensures
      var b', uses := LowerLayout(b, id, st, ld).body, b.blocks.filled[id].uses;
      && |uses| == 2 && b'.insts.Active(uses[0]) && b'.insts.Active(uses[1])
      && b'.insts.filled[uses[0]].operands != [] && b'.insts.filled[uses[1]].operands != []
      && var (s, l) := (b'.insts.filled[uses[0]].operands[0], b'.insts.filled[uses[1]].operands[0]);
         && s.Induction? && l.Induction? && s.v < |b'.indVars| && l.v < |b'.indVars|
         && b'.indVars[s.v].base == Address(id) && b'.indVars[l.v].base == Address(id)
         && (Offset(elem, size, i, b'.indVars[s.v].increments) == Offset(elem, size, j, b'.indVars[l.v].increments) <==>
             forall k :: 0 <= k < |st| ==> i(st[k]) == j(ld[k]))
  {
    LowerLayoutIff(b, id, st, ld);
    assert TemporaryOk(b, id);
    SameAddressIff(elem, size, i, j, id, st, ld);
  }
}
