/** Global memory of which each block of threads owns a part. */
module PrivateMemory {
  import opened Wrappers
  import opened Divisibility
  import opened CodegenSizes
  import opened InductionVars
  import opened LoopCode
  import opened StraightCode
  import opened LoopPrinter
  import MixedRadix

  // ----- The code that finds the part of a block -----

  /** A block dimension: the register of its index and its size. */
  datatype BlockDim = BlockDim(g: nat, size: InductionVars.Size)

  /** The index of the block, folded from the outermost dimension. */
  function FoldCode(dims: seq<BlockDim>, n: nat, tmps: nat): seq<Instr>
    requires n <= |dims|
  {
    if n <= 1 then []
    else
      var before := if n == 2 then R(Index(dims[0].g)) else R(Tmp(tmps + n - 3));
      FoldCode(dims, n - 1, tmps) + [Mad(Tmp(tmps + n - 2), before, NameSize(dims[n - 1].size), R(Index(dims[n - 1].g)))]
  }

  function FoldResult(dims: seq<BlockDim>, n: nat, tmps: nat): Operand
    requires 1 <= n <= |dims|
  {
    if n == 1 then R(Index(dims[0].g)) else R(Tmp(tmps + n - 2))
  }

  function PrivateCode(addr: Reg, size: InductionVars.Size, dims: seq<BlockDim>, tmps: nat): seq<Instr> {
    if dims == [] then []
    else FoldCode(dims, |dims|, tmps) + [Mad(addr, FoldResult(dims, |dims|, tmps), NameSize(size), R(addr))]
  }

  /** Moves an address to the part of the current block. */
  method PrivatiseGlobalBlock(printer: Printer, addr: Reg, size: InductionVars.Size, dims: seq<BlockDim>)
    modifies printer
    ensures printer.code == old(printer.code) + PrivateCode(addr, size, dims, old(printer.names.tmps))
  {
    if dims == [] {
      return;
    }
    var oldVar := R(Index(dims[0].g));
    ghost var start, tmps := printer.code, printer.names.tmps;
    for k := 1 to |dims|
      invariant printer.code == start + FoldCode(dims, k, tmps) && printer.names.tmps == tmps + k - 1
      invariant oldVar == FoldResult(dims, k, tmps)
    {
      var v := printer.GenName();
      printer.Print(Mad(v, oldVar, NameSize(dims[k].size), R(Index(dims[k].g))));
      oldVar := R(v);
    }
    printer.Print(Mad(addr, oldVar, NameSize(size), R(addr)));
  }

  // ----- What the code computes -----

  /** The registers hold the index of the block, and sizes have their values. */
  ghost predicate Inputs(regs: Regs, dims: seq<BlockDim>, sizes: seq<nat>, indexes: seq<nat>) {
    && |sizes| == |dims| == |indexes|
    && forall k :: 0 <= k < |dims| ==> Get(regs, Index(dims[k].g)) == indexes[k] && Eval(regs, NameSize(dims[k].size)) == sizes[k]
  }

  ghost predicate OnlyTmps(regs: Regs, regs': Regs) {
    forall r: Reg :: !r.Tmp? ==> Get(regs', r) == Get(regs, r)
  }

  function FoldRegs(regs: Regs, dims: seq<BlockDim>, n: nat, tmps: nat): Regs
    requires n <= |dims|
  {
    if n <= 1 then regs
    else
      var regs' := FoldRegs(regs, dims, n - 1, tmps);
      Apply(regs', Mad(Tmp(tmps + n - 2), FoldResult(dims, n - 1, tmps), NameSize(dims[n - 1].size), R(Index(dims[n - 1].g))))
  }

  lemma {:induction false} RunFold(code: seq<Instr>, p: nat, regs: Regs, dims: seq<BlockDim>, n: nat, tmps: nat, trace: seq<Event>)
    requires n <= |dims| && At(code, p, FoldCode(dims, n, tmps))
    ensures Runs(code, p, FoldCode(dims, n, tmps), regs, FoldRegs(regs, dims, n, tmps), trace)
  {
    if n <= 1 {
      RunsEmpty(code, p, regs, trace);
    } else {
      var before := FoldCode(dims, n - 1, tmps);
      var last := Mad(Tmp(tmps + n - 2), FoldResult(dims, n - 1, tmps), NameSize(dims[n - 1].size), R(Index(dims[n - 1].g)));
      assert FoldCode(dims, n, tmps) == before + [last];
      AtConcat(code, p, before, [last]);
      RunFold(code, p, regs, dims, n - 1, tmps, trace);
      RunsThen(code, p, before, last, regs, FoldRegs(regs, dims, n - 1, tmps), trace);
    }
  }

  /** The fold is Horner's form of the number the block indexes write. */
  lemma {:induction false} FoldIsHorner(regs: Regs, dims: seq<BlockDim>, sizes: seq<nat>, indexes: seq<nat>, n: nat, tmps: nat)
    requires Inputs(regs, dims, sizes, indexes) && 1 <= n <= |dims|
    ensures OnlyTmps(regs, FoldRegs(regs, dims, n, tmps))
    ensures Eval(FoldRegs(regs, dims, n, tmps), FoldResult(dims, n, tmps)) == MixedRadix.Horner(sizes, indexes, n)
  {
    if n == 1 {
      assert MixedRadix.Horner(sizes, indexes, 0) * sizes[0] == 0;
    } else {
      FoldIsHorner(regs, dims, sizes, indexes, n - 1, tmps);
      var regs' := FoldRegs(regs, dims, n - 1, tmps);
      assert Eval(regs', NameSize(dims[n - 1].size)) == sizes[n - 1];
    }
  }

  /** The emitted code adds to the address the index of the block times the size of its part. */
  lemma PrivateAddress(
      code: seq<Instr>, p: nat, regs: Regs, addr: Reg, size: InductionVars.Size, dims: seq<BlockDim>, tmps: nat,
      sizes: seq<nat>, indexes: seq<nat>, trace: seq<Event>)
    returns (regs': Regs)
    requires At(code, p, PrivateCode(addr, size, dims, tmps)) && Inputs(regs, dims, sizes, indexes)
    requires !addr.Tmp? && !addr.Index? && !addr.Param?
    ensures Runs(code, p, PrivateCode(addr, size, dims, tmps), regs, regs', trace)
    ensures Get(regs', addr) == Get(regs, addr) + MixedRadix.Rank(sizes, indexes) * Eval(regs, NameSize(size))
    ensures forall r: Reg :: !r.Tmp? && r != addr ==> Get(regs', r) == Get(regs, r)
  {
    if dims == [] {
      RunsEmpty(code, p, regs, trace);
      regs' := regs;
    } else {
      var n := |dims|;
      var fold, last := FoldCode(dims, n, tmps), Mad(addr, FoldResult(dims, n, tmps), NameSize(size), R(addr));
      AtConcat(code, p, fold, [last]);
      RunFold(code, p, regs, dims, n, tmps, trace);
      FoldIsHorner(regs, dims, sizes, indexes, n, tmps);
      MixedRadix.HornerIsRank(sizes, indexes, n);
      assert sizes[..n] == sizes && indexes[..n] == indexes;
      var folded := FoldRegs(regs, dims, n, tmps);
      RunsThen(code, p, fold, last, regs, folded, trace);
      regs' := Apply(folded, last);
    }
  }

  // ----- The parts of the blocks -----

  /** Offset `o` lies in the part of the block. */
  ghost predicate InPart(sizes: seq<nat>, indexes: seq<nat>, local: nat, o: nat)
    requires |indexes| == |sizes|
  {
    MixedRadix.Rank(sizes, indexes) * local <= o < MixedRadix.Rank(sizes, indexes) * local + local
  }

  /** The parts of the blocks tile the memory: each offset belongs to exactly one block. */
  lemma PartsTile(sizes: seq<nat>, local: nat, o: nat)
    requires local > 0
    ensures o < MixedRadix.Product(sizes) * local <==>
            exists indexes :: MixedRadix.Digits(sizes, indexes) && InPart(sizes, indexes, local, o)
    ensures forall a, b | MixedRadix.Digits(sizes, a) && MixedRadix.Digits(sizes, b) ::
              InPart(sizes, a, local, o) && InPart(sizes, b, local, o) ==> a == b
  {
    var n := MixedRadix.Product(sizes);
    if o < n * local {
      MixedRadix.QuotientBound(o, n, local);
      MixedRadix.RankUnrank(sizes, o / local);
      assert InPart(sizes, MixedRadix.Unrank(sizes, o / local), local, o);
    }
    forall a | MixedRadix.Digits(sizes, a) && InPart(sizes, a, local, o) ensures o < n * local {
      MixedRadix.RankBound(sizes, a);
      MixedRadix.MulGap(MixedRadix.Rank(sizes, a), n, local);
    }
    forall a, b | MixedRadix.Digits(sizes, a) && MixedRadix.Digits(sizes, b) && InPart(sizes, a, local, o) && InPart(sizes, b, local, o)
      ensures a == b
    {
      SamePart(MixedRadix.Rank(sizes, a), MixedRadix.Rank(sizes, b), local, o);
      MixedRadix.RankInjective(sizes, a, b);
    }
  }

  lemma SamePart(x: nat, y: nat, local: nat, o: nat)
    requires x * local <= o < x * local + local && y * local <= o < y * local + local
    ensures x == y
  {
    if x < y {
      MixedRadix.MulGap(x, y, local);
    } else if y < x {
      MixedRadix.MulGap(y, x, local);
    }
  }

  // ----- Their sizes -----

  /** The number of blocks of threads, if there are block dimensions. */
  method NumBlocks(dims: seq<Quotient>) returns (count: Option<Quotient>)
    ensures count == if dims == [] then None else Some(ProductOf(dims[0], dims[1..]))
  {
    if dims == [] {
      return None;
    }
    var size := new CodegenSize(1, [], 1);
    size.factor, size.dividend, size.divisor := dims[0].factor, dims[0].dividend, dims[0].divisor;
    for k := 1 to |dims|
      invariant size.View() == ProductOf(dims[0], dims[1..k])
    {
      assert dims[1..k + 1][..k - 1] == dims[1..k];
      size.MulAssign(dims[k]);
    }
    assert dims[1..|dims|] == dims[1..];
    count := Some(size.View());
  }

  function ProductOf(first: Quotient, rest: seq<Quotient>): Quotient {
    if rest == [] then first else Product(ProductOf(first, rest[..|rest| - 1]), rest[|rest| - 1])
  }

  /** The size of the part of a block, from the size of an element and the dimensions stored. */
  method LocalSize(base: nat, dims: seq<Quotient>) returns (size: Quotient)
    ensures size == ProductOf(Simplify(Quotient(base, [], 1)), dims)
  {
    var s := new CodegenSize(base, [], 1);
    for k := 0 to |dims|
      invariant s.View() == ProductOf(Simplify(Quotient(base, [], 1)), dims[..k])
    {
      assert dims[..k + 1][..k] == dims[..k];
      s.MulAssign(dims[k]);
    }
    assert dims[..|dims|] == dims;
    size := s.View();
  }

  function AllocSize(local: Quotient, copies: Option<Quotient>): Quotient {
    if copies.None? then local else Product(local, copies.value)
  }

  ghost predicate Values(dims: seq<Quotient>, param: nat -> nat, sizes: seq<nat>) {
    |dims| == |sizes| && forall k :: 0 <= k < |dims| ==> dims[k].Valid() && dims[k].IsValue(param, sizes[k])
  }

  lemma {:induction false} ProductOfValue(first: Quotient, rest: seq<Quotient>, param: nat -> nat, x: nat, sizes: seq<nat>)
    requires first.Valid() && first.IsValue(param, x) && Values(rest, param, sizes)
    ensures ProductOf(first, rest).Valid() && ProductOf(first, rest).IsValue(param, x * MixedRadix.Product(sizes))
    decreases |rest|
  {
    if rest != [] {
      var n := |rest| - 1;
      ProductOfValue(first, rest[..n], param, x, sizes[..n]);
      ProductValue(ProductOf(first, rest[..n]), rest[n], param, x * MixedRadix.Product(sizes[..n]), sizes[n]);
      assert sizes == sizes[..n] + [sizes[n]];
      MixedRadix.ProductAppend(sizes[..n], sizes[n]);
      Assoc(x, MixedRadix.Product(sizes[..n]), sizes[n]);
    }
  }

  /** The allocated memory is exactly the parts of all the blocks. */
  lemma AllocatedIsTiled(local: Quotient, dims: seq<Quotient>, param: nat -> nat, part: nat, sizes: seq<nat>)
    requires local.Valid() && local.IsValue(param, part) && dims != [] && Values(dims, param, sizes)
    ensures AllocSize(local, Some(ProductOf(dims[0], dims[1..]))).IsValue(param, MixedRadix.Product(sizes) * part)
  {
    ProductOfValue(dims[0], dims[1..], param, sizes[0], sizes[1..]);
    ProductValue(local, ProductOf(dims[0], dims[1..]), param, part, MixedRadix.Product(sizes));
    Commute(part, MixedRadix.Product(sizes));
  }
}
