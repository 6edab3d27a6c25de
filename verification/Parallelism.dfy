/** The parallelism of a kernel whose sizes are not decided yet, and the waves of blocks it runs in. */
module Parallelisms {
  import opened Divisibility
  import opened Products
  import opened SizeBounds
  import opened SizeExprs
  import PartialSizes
  import SE = SizeExactness
  import FixedSizes
  import MixedRadix

  type Expr = PartialSizes.Expr

  datatype Parallelism = Parallelism(minBlocks: nat, minThreadsPerBlock: nat, minThreads: nat, lcmBlocks: nat) {
    function Combine(rhs: Parallelism): Parallelism
      requires lcmBlocks > 0 && rhs.lcmBlocks > 0
    {
      Parallelism(Min(minBlocks, rhs.minBlocks), Min(minThreadsPerBlock, rhs.minThreadsPerBlock),
                  Min(minThreads, rhs.minThreads), Lcm(lcmBlocks, rhs.lcmBlocks))
    }

    /** What it says of a kernel with this many blocks, and threads in each of them. */
    ghost predicate Sound(blocks: nat, threads: nat) {
      && minBlocks <= blocks && minThreadsPerBlock <= threads && minThreads <= blocks * threads
      && lcmBlocks > 0 && Divides(blocks, lcmBlocks)
    }
  }

  function Min(a: nat, b: nat): nat {
    if a <= b then a else b
  }

  /** A dimension around an instruction: its size, and whether it surely or possibly is a block dimension. */
  datatype OuterDim = OuterDim(size: Expr, surely: bool, possibly: bool)

  function Sizes(dims: seq<OuterDim>): seq<Expr> {
    seq(|dims|, k requires 0 <= k < |dims| => dims[k].size)
  }

  function Surely(dims: seq<OuterDim>): seq<bool> {
    seq(|dims|, k requires 0 <= k < |dims| => dims[k].surely)
  }

  function Possibly(dims: seq<OuterDim>): seq<bool> {
    seq(|dims|, k requires 0 <= k < |dims| => dims[k].possibly)
  }

  function MinBlocks(dims: seq<OuterDim>): Expr {
    Kept(Sizes(dims), Surely(dims))
  }

  function MaxBlocks(dims: seq<OuterDim>): Expr {
    Kept(Sizes(dims), Possibly(dims))
  }

  function ParallelismOf(dims: seq<OuterDim>, threads: Expr, param: nat -> nat, domain: Domain): Parallelism {
    Parallelism(BoundsOf(SizeOf(MinBlocks(dims), param), domain).min,
                BoundsOf(SizeOf(threads, param), domain).min,
                BoundsOf(SizeOf(PartialSizes.Product(MinBlocks(dims), threads), param), domain).min,
                FactorsOf(SizeOf(MaxBlocks(dims), param), domain).lcm)
  }

  /** The least value of the expression bounds its value for these sizes. */
  predicate MinHolds(e: Expr, param: nat -> nat, domain: Domain, c: nat -> nat) {
    SE.LeastFactorOk(domain, ToSeq(e.dims), ToSeq(e.divisors), c)
  }

  /** The sizes of the dimensions in the expression are chosen in their domains. */
  ghost predicate Sized(dims: set<nat>, domain: Domain, c: nat -> nat) {
    forall d :: d in dims ==> Positive(domain(d)) && c(d) in domain(d)
  }

  /** The kernel decided: which dimensions around an instruction became blocks, and the values of their sizes. */
  datatype Decision = Decision(values: seq<nat>, chosen: seq<bool>)

  /** The decision respects what was known: sizes have values in their domains, sure blocks are blocks, others only if possible. */
  ghost predicate Decided(dims: seq<OuterDim>, threads: Expr, param: nat -> nat, domain: Domain, c: nat -> nat, d: Decision, count: nat) {
    && HaveValues(Sizes(dims), PartialSizes.Env(param, c), d.values) && Apart(Sizes(dims)) && |d.chosen| == |dims|
    && HasValue(threads, PartialSizes.Env(param, c), count) && count > 0
    && threads.dims !! SizeExprs.AllDims(Sizes(dims)) && threads.divisors !! AllDivisors(Sizes(dims))
    && Sized(SizeExprs.AllDims(Sizes(dims)) + AllDivisors(Sizes(dims)) + threads.dims + threads.divisors, domain, c)
    && (forall k :: 0 <= k < |dims| ==> (dims[k].surely ==> d.chosen[k]) && (d.chosen[k] ==> dims[k].possibly))
    && MinHolds(MinBlocks(dims), param, domain, c) && MinHolds(threads, param, domain, c)
    && MinHolds(PartialSizes.Product(MinBlocks(dims), threads), param, domain, c)
  }

  /** The number of blocks around an instruction. */
  ghost function Blocks(d: Decision): nat
    requires |d.chosen| == |d.values|
  {
    KeptValue(d.values, d.chosen)
  }

  lemma MinOfExpr(e: Expr, param: nat -> nat, domain: Domain, c: nat -> nat, v: nat)
    requires HasValue(e, PartialSizes.Env(param, c), v) && v > 0 && Sized(e.dims + e.divisors, domain, c)
    requires MinHolds(e, param, domain, c)
    ensures BoundsOf(SizeOf(e, param), domain).min <= v
  {
    ValueOfSize(e, param, domain, c, v);
    var size := SizeOf(e, param);
    SE.LeastFactorDecides(domain, size.factor, size.dims, size.divisors, c);
  }

  lemma LcmOfExpr(e: Expr, param: nat -> nat, domain: Domain, c: nat -> nat, v: nat)
    requires HasValue(e, PartialSizes.Env(param, c), v) && v > 0 && Sized(e.dims + e.divisors, domain, c)
    ensures FactorsOf(SizeOf(e, param), domain).lcm > 0 && Divides(v, FactorsOf(SizeOf(e, param), domain).lcm)
  {
    ValueOfSize(e, param, domain, c, v);
    FactorsSound(SizeOf(e, param), domain, c);
    LcmPositive(SizeOf(e, param), domain, c);
  }

  lemma DecidedKept(dims: seq<OuterDim>, threads: Expr, param: nat -> nat, domain: Domain, c: nat -> nat, d: Decision, count: nat, keep: seq<bool>)
    requires Decided(dims, threads, param, domain, c, d, count) && |keep| == |dims|
    ensures HasValue(Kept(Sizes(dims), keep), PartialSizes.Env(param, c), KeptValue(d.values, keep))
    ensures KeptValue(d.values, keep) > 0
  {
    forall e | e in AllDivisors(Sizes(dims)) ensures c(e) > 0 {
      assert e in SizeExprs.AllDims(Sizes(dims)) + AllDivisors(Sizes(dims)) + threads.dims + threads.divisors;
    }
    KeptHasValue(Sizes(dims), keep, PartialSizes.Env(param, c), d.values);
  }

  lemma BlocksBetween(dims: seq<OuterDim>, values: seq<nat>, chosen: seq<bool>)
    requires |values| == |chosen| == |dims| && KeptValue(values, chosen) > 0
    requires forall k :: 0 <= k < |dims| ==> (dims[k].surely ==> chosen[k]) && (chosen[k] ==> dims[k].possibly)
    ensures KeptValue(values, Surely(dims)) <= KeptValue(values, chosen)
    ensures Divides(KeptValue(values, chosen), KeptValue(values, Possibly(dims)))
  {
    KeepMore(values, Surely(dims), chosen);
    KeepMore(values, chosen, Possibly(dims));
    DividesLe(KeptValue(values, Surely(dims)), KeptValue(values, chosen));
  }

  lemma ProductSized(dims: seq<OuterDim>, threads: Expr, param: nat -> nat, domain: Domain, c: nat -> nat, d: Decision, count: nat)
    requires Decided(dims, threads, param, domain, c, d, count)
    ensures
      var all := PartialSizes.Product(MinBlocks(dims), threads);
      Sized(all.dims + all.divisors, domain, c) && PartialSizes.Den(all, PartialSizes.Env(param, c)) > 0
    ensures MinBlocks(dims).dims !! threads.dims && MinBlocks(dims).divisors !! threads.divisors
  {
    KeptDims(Sizes(dims), Surely(dims));
    var all := PartialSizes.Product(MinBlocks(dims), threads);
    assert all.dims <= SizeExprs.AllDims(Sizes(dims)) + threads.dims;
    assert all.divisors <= AllDivisors(Sizes(dims)) + threads.divisors;
    PartialSizes.ProdPositive(c, all.divisors);
  }

  lemma ThreadsOfBlocks(dims: seq<OuterDim>, threads: Expr, param: nat -> nat, domain: Domain, c: nat -> nat, d: Decision, count: nat)
    requires Decided(dims, threads, param, domain, c, d, count) && Blocks(d) >= KeptValue(d.values, Surely(dims))
    ensures BoundsOf(SizeOf(PartialSizes.Product(MinBlocks(dims), threads), param), domain).min <= Blocks(d) * count
  {
    var all, env, least := PartialSizes.Product(MinBlocks(dims), threads), PartialSizes.Env(param, c), KeptValue(d.values, Surely(dims));
    DecidedKept(dims, threads, param, domain, c, d, count, Surely(dims));
    ProductSized(dims, threads, param, domain, c, d, count);
    ProductHasValue(MinBlocks(dims), threads, env, least, count);
    MulPositive(least, count);
    MinOfExpr(all, param, domain, c, least * count);
    MixedRadix.MulMonotone(least, Blocks(d), count);
  }

  /** What is computed around an instruction is sound for the blocks it ends up in. */
  lemma InstructionSound(dims: seq<OuterDim>, threads: Expr, param: nat -> nat, domain: Domain, c: nat -> nat, d: Decision, count: nat)
    requires Decided(dims, threads, param, domain, c, d, count)
    ensures ParallelismOf(dims, threads, param, domain).Sound(Blocks(d), count)
  {
    DecidedKept(dims, threads, param, domain, c, d, count, Surely(dims));
    DecidedKept(dims, threads, param, domain, c, d, count, Possibly(dims));
    DecidedKept(dims, threads, param, domain, c, d, count, d.chosen);
    BlocksBetween(dims, d.values, d.chosen);
    ThreadsOfBlocks(dims, threads, param, domain, c, d, count);
    KeptDims(Sizes(dims), Surely(dims));
    KeptDims(Sizes(dims), Possibly(dims));
    var least, most := KeptValue(d.values, Surely(dims)), KeptValue(d.values, Possibly(dims));
    MinOfExpr(MinBlocks(dims), param, domain, c, least);
    MinOfExpr(threads, param, domain, c, count);
    LcmOfExpr(MaxBlocks(dims), param, domain, c, most);
    DividesTrans(Blocks(d), most, FactorsOf(SizeOf(MaxBlocks(dims), param), domain).lcm);
  }

  // ----- Kernels whose choices are all made -----

  ghost predicate SizesKnown(dims: set<nat>, domain: Domain, c: nat -> nat) {
    forall d :: d in dims ==> Positive(domain(d)) && domain(d) == [c(d)]
  }

  function AllSizes(dims: seq<OuterDim>, threads: Expr): set<nat> {
    SizeExprs.AllDims(Sizes(dims)) + AllDivisors(Sizes(dims)) + threads.dims + threads.divisors
  }

  /** Every dimension around the instruction is a block dimension or surely none, and the sizes are known. */
  ghost predicate AllKnown(dims: seq<OuterDim>, threads: Expr, domain: Domain, c: nat -> nat) {
    && (forall k :: 0 <= k < |dims| ==> dims[k].surely == dims[k].possibly)
    && SizesKnown(AllSizes(dims, threads), domain, c)
  }

  /** The parallelism of a kernel with this many blocks, and threads in each of them. */
  function Exactly(blocks: nat, threads: nat): Parallelism {
    Parallelism(blocks, threads, blocks * threads, blocks)
  }

  lemma KnownExpr(e: Expr, param: nat -> nat, domain: Domain, c: nat -> nat, v: nat)
    requires HasValue(e, PartialSizes.Env(param, c), v) && v > 0 && SizesKnown(e.dims + e.divisors, domain, c)
    ensures BoundsOf(SizeOf(e, param), domain).min == v && FactorsOf(SizeOf(e, param), domain).lcm == v
  {
    ValueOfSize(e, param, domain, c, v);
    ToSeqMembers(e.dims);
    ToSeqMembers(e.divisors);
    FixedSizes.KnownSize(SizeOf(e, param), domain, c);
  }

  lemma KnownSubset(small: set<nat>, large: set<nat>, domain: Domain, c: nat -> nat)
    requires small <= large && SizesKnown(large, domain, c)
    ensures SizesKnown(small, domain, c)
  {
  }

  lemma KnownThreads(dims: seq<OuterDim>, threads: Expr, param: nat -> nat, domain: Domain, c: nat -> nat, d: Decision, count: nat)
    requires Decided(dims, threads, param, domain, c, d, count) && AllKnown(dims, threads, domain, c) && d.chosen == Surely(dims)
    ensures BoundsOf(SizeOf(PartialSizes.Product(MinBlocks(dims), threads), param), domain).min == Blocks(d) * count
  {
    var all := PartialSizes.Product(MinBlocks(dims), threads);
    DecidedKept(dims, threads, param, domain, c, d, count, d.chosen);
    KeptDims(Sizes(dims), d.chosen);
    ProductSized(dims, threads, param, domain, c, d, count);
    ProductHasValue(MinBlocks(dims), threads, PartialSizes.Env(param, c), Blocks(d), count);
    MulPositive(Blocks(d), count);
    KnownSubset(all.dims + all.divisors, AllSizes(dims, threads), domain, c);
    KnownExpr(all, param, domain, c, Blocks(d) * count);
  }

  lemma AllChosen(dims: seq<OuterDim>, chosen: seq<bool>)
    requires |chosen| == |dims| && forall k :: 0 <= k < |dims| ==> dims[k].surely == dims[k].possibly
    requires forall k :: 0 <= k < |dims| ==> (dims[k].surely ==> chosen[k]) && (chosen[k] ==> dims[k].possibly)
    ensures chosen == Surely(dims) && MaxBlocks(dims) == MinBlocks(dims)
  {
    assert Surely(dims) == Possibly(dims);
  }

  lemma KnownBlocks(dims: seq<OuterDim>, threads: Expr, param: nat -> nat, domain: Domain, c: nat -> nat, d: Decision, count: nat)
    requires Decided(dims, threads, param, domain, c, d, count) && AllKnown(dims, threads, domain, c) && d.chosen == Surely(dims)
    ensures BoundsOf(SizeOf(MinBlocks(dims), param), domain).min == Blocks(d)
    ensures FactorsOf(SizeOf(MinBlocks(dims), param), domain).lcm == Blocks(d)
  {
    DecidedKept(dims, threads, param, domain, c, d, count, d.chosen);
    KeptDims(Sizes(dims), d.chosen);
    var blocks := MinBlocks(dims);
    KnownSubset(blocks.dims + blocks.divisors, AllSizes(dims, threads), domain, c);
    KnownExpr(blocks, param, domain, c, Blocks(d));
  }

  /** What is computed around an instruction is then what the kernel has. */
  lemma KnownParallelism(dims: seq<OuterDim>, threads: Expr, param: nat -> nat, domain: Domain, c: nat -> nat, d: Decision, count: nat)
    requires Decided(dims, threads, param, domain, c, d, count) && AllKnown(dims, threads, domain, c)
    ensures ParallelismOf(dims, threads, param, domain) == Exactly(Blocks(d), count)
  {
    AllChosen(dims, d.chosen);
    KnownThreads(dims, threads, param, domain, c, d, count);
    KnownBlocks(dims, threads, param, domain, c, d, count);
    KnownSubset(threads.dims + threads.divisors, AllSizes(dims, threads), domain, c);
    KnownExpr(threads, param, domain, c, count);
  }

  lemma BlocksPositive(dims: seq<OuterDim>, threads: Expr, param: nat -> nat, domain: Domain, c: nat -> nat, d: Decision, count: nat)
    requires Decided(dims, threads, param, domain, c, d, count)
    ensures Blocks(d) > 0
  {
    DecidedKept(dims, threads, param, domain, c, d, count, d.chosen);
  }

  lemma CombineKnown(blocks: nat, threads: nat)
    requires blocks > 0
    ensures Exactly(blocks, threads).Combine(Exactly(blocks, threads)) == Exactly(blocks, threads)
  {
    DividesSelf(blocks);
    LcmMultiple(blocks, blocks);
    LcmLeast(blocks, blocks, blocks);
    DividesBoth(Lcm(blocks, blocks), blocks);
  }

  /** Multiplies the sizes of the dimensions that may be blocks, and of those that are. */
  method InstructionParallelism(dims: seq<OuterDim>, threads: Expr, param: nat -> nat, domain: Domain) returns (p: Parallelism)
    requires forall k :: 0 <= k < |dims| && dims[k].surely ==> dims[k].possibly
    ensures p == ParallelismOf(dims, threads, param, domain)
  {
    var min, max := PartialSizes.Expr(1, [], {}, {}), PartialSizes.Expr(1, [], {}, {});
    for k := 0 to |dims|
      invariant min == Kept(Sizes(dims)[..k], Surely(dims)[..k]) && max == Kept(Sizes(dims)[..k], Possibly(dims)[..k])
    {
      KeptStep(Sizes(dims), Surely(dims), k);
      KeptStep(Sizes(dims), Possibly(dims), k);
      if dims[k].possibly {
        max := PartialSizes.Product(max, dims[k].size);
        if dims[k].surely {
          min := PartialSizes.Product(min, dims[k].size);
        }
      }
    }
    KeptAll(Sizes(dims), Surely(dims));
    KeptAll(Sizes(dims), Possibly(dims));
    p := Parallelism(Bound(min, param, domain), Bound(threads, param, domain), Bound(PartialSizes.Product(min, threads), param, domain),
                     FactorsOf(SizeOf(max, param), domain).lcm);
  }

  function Bound(e: Expr, param: nat -> nat, domain: Domain): nat {
    BoundsOf(SizeOf(e, param), domain).min
  }

  lemma KeptStep(sizes: seq<Expr>, keep: seq<bool>, k: nat)
    requires |keep| == |sizes| && k < |sizes|
    ensures Kept(sizes[..k + 1], keep[..k + 1]) ==
            if keep[k] then PartialSizes.Product(Kept(sizes[..k], keep[..k]), sizes[k]) else Kept(sizes[..k], keep[..k])
  {
    assert sizes[..k + 1][..k] == sizes[..k] && keep[..k + 1][..k] == keep[..k];
  }

  lemma KeptAll(sizes: seq<Expr>, keep: seq<bool>)
    requires |keep| == |sizes|
    ensures Kept(sizes[..|sizes|], keep[..|sizes|]) == Kept(sizes, keep)
  {
    assert sizes[..|sizes|] == sizes && keep[..|sizes|] == keep;
  }

  lemma LcmPositive(size: Size, domain: Domain, c: nat -> nat)
    requires size.factor > 0 && Choice(domain, size, c)
    ensures FactorsOf(size, domain).lcm > 0
  {
    FactorsOfDims(size, domain, c);
    SizeBounds.AllDims(size);
    Dividend(size, Multiple(domain));
    Dividend(size, c);
    TimesMonotoneMultiple(size, domain, c);
    ShrinkBound(size.factor * Times(c, size.dims), size.factor * Times(Multiple(domain), size.dims), Common(domain), size.divisors, c);
    FactorsSound(size, domain, c);
  }

  lemma TimesMonotoneMultiple(size: Size, domain: Domain, c: nat -> nat)
    requires Choice(domain, size, c)
    ensures size.factor * Times(c, size.dims) <= size.factor * Times(Multiple(domain), size.dims)
    ensures forall d :: d in size.divisors ==> 0 < Common(domain)(d) <= c(d)
  {
    FactorsOfDims(size, domain, c);
    SizeBounds.AllDims(size);
    forall d | d in size.dims ensures c(d) <= Multiple(domain)(d) {
      DividesLe(c(d), Multiple(domain)(d));
    }
    forall d | d in size.divisors ensures Common(domain)(d) <= c(d) {
      DividesLe(Common(domain)(d), c(d));
    }
    TimesMonotone(c, Multiple(domain), size.dims);
    ProductMonotone(size.factor, size.factor, Times(c, size.dims), Times(Multiple(domain), size.dims));
  }

  lemma CombineSound(p: Parallelism, q: Parallelism, blocks: nat, threads: nat)
    requires p.Sound(blocks, threads) && q.Sound(blocks, threads)
    ensures p.Combine(q).Sound(blocks, threads)
  {
    LcmMultiple(p.lcmBlocks, q.lcmBlocks);
    DividesTrans(blocks, p.lcmBlocks, Lcm(p.lcmBlocks, q.lcmBlocks));
  }

  /** What the kernel was decided to be around each instruction. */
  ghost predicate AllDecided(
      nestings: seq<seq<OuterDim>>, threads: Expr, param: nat -> nat, domain: Domain, c: nat -> nat,
      decisions: seq<Decision>, blocks: nat, count: nat)
  {
    && |decisions| == |nestings|
    && forall k :: 0 <= k < |nestings| ==>
         Decided(nestings[k], threads, param, domain, c, decisions[k], count) && Blocks(decisions[k]) == blocks
  }

  ghost predicate EachKnown(nestings: seq<seq<OuterDim>>, threads: Expr, domain: Domain, c: nat -> nat) {
    forall k :: 0 <= k < |nestings| ==> AllKnown(nestings[k], threads, domain, c)
  }

  /** Sound, and exact when every choice is made. */
  ghost predicate Faithful(p: Parallelism, blocks: nat, threads: nat, known: bool) {
    p.Sound(blocks, threads) && (known ==> p == Exactly(blocks, threads))
  }

  lemma InstructionFaithful(
      nestings: seq<seq<OuterDim>>, threads: Expr, param: nat -> nat, domain: Domain, c: nat -> nat,
      decisions: seq<Decision>, blocks: nat, count: nat, k: nat)
    requires AllDecided(nestings, threads, param, domain, c, decisions, blocks, count) && k < |nestings|
    ensures Faithful(ParallelismOf(nestings[k], threads, param, domain), blocks, count, EachKnown(nestings, threads, domain, c))
    ensures blocks > 0
  {
    InstructionSound(nestings[k], threads, param, domain, c, decisions[k], count);
    BlocksPositive(nestings[k], threads, param, domain, c, decisions[k], count);
    if EachKnown(nestings, threads, domain, c) {
      KnownParallelism(nestings[k], threads, param, domain, c, decisions[k], count);
    }
  }

  lemma CombineFaithful(p: Parallelism, q: Parallelism, blocks: nat, threads: nat, known: bool)
    requires Faithful(p, blocks, threads, known) && Faithful(q, blocks, threads, known) && blocks > 0
    ensures Faithful(p.Combine(q), blocks, threads, known)
  {
    CombineSound(p, q, blocks, threads);
    CombineKnown(blocks, threads);
  }

  /**
   The parallelism of a whole kernel is sound for its blocks, whichever of its dimensions become
   blocks, and exact once every choice is made.
   */
  method KernelParallelism(
      nestings: seq<seq<OuterDim>>, threads: Expr, param: nat -> nat, domain: Domain,
      ghost c: nat -> nat, ghost decisions: seq<Decision>, ghost blocks: nat, ghost count: nat)
    returns (total: Parallelism)
    requires forall k, j :: 0 <= k < |nestings| && 0 <= j < |nestings[k]| && nestings[k][j].surely ==> nestings[k][j].possibly
    requires AllDecided(nestings, threads, param, domain, c, decisions, blocks, count)
    ensures nestings == [] ==> total == Parallelism(1, 1, 1, 1)
    ensures nestings != [] ==> total.Sound(blocks, count)
    ensures nestings != [] && EachKnown(nestings, threads, domain, c) ==> total == Exactly(blocks, count)
  {
    if nestings == [] {
      return Parallelism(1, 1, 1, 1);
    }
    ghost var known := EachKnown(nestings, threads, domain, c);
    InstructionFaithful(nestings, threads, param, domain, c, decisions, blocks, count, 0);
    total := InstructionParallelism(nestings[0], threads, param, domain);
    for k := 1 to |nestings|
      invariant Faithful(total, blocks, count, known)
    {
      InstructionFaithful(nestings, threads, param, domain, c, decisions, blocks, count, k);
      var p := InstructionParallelism(nestings[k], threads, param, domain);
      CombineFaithful(total, p, blocks, count, known);
      total := total.Combine(p);
    }
  }

  // ----- Waves -----

  function CeilDiv(a: nat, b: nat): nat
    requires b > 0
  {
    (a + b - 1) / b
  }

  /** The quotient rounded up is the least number of parts of size `b` that hold `a`. */
  lemma CeilDivIs(a: nat, b: nat, k: nat)
    requires b > 0
    ensures a <= CeilDiv(a, b) * b
    ensures a <= k * b ==> CeilDiv(a, b) <= k
  {
    var n, q := a + b - 1, CeilDiv(a, b);
    Commute(b, q);
    assert n == q * b + n % b;
    if a <= k * b && k < q {
      MixedRadix.MulGap(k, q, b);
    }
  }

  /** What a bound on one block is multiplied by, from the least number of blocks and a multiple of it. */
  function ScaleFactor(hw: nat, minBlocks: nat, lcmBlocks: nat): real
    requires hw > 0 && lcmBlocks > 0
  {
    (CeilDiv(lcmBlocks, hw) * minBlocks) as real / lcmBlocks as real
  }

  /** Splitting the work more evenly never takes more waves: blocks run in at least the waves of the scaled bound. */
  lemma WavesScale(hw: nat, blocks: nat, k: nat)
    requires hw > 0
    ensures CeilDiv(blocks * k, hw) <= CeilDiv(blocks, hw) * k
  {
    var waves := CeilDiv(blocks, hw);
    CeilDivIs(blocks, hw, 0);
    MixedRadix.MulMonotone(blocks, waves * hw, k);
    Assoc(waves, hw, k);
    Commute(hw, k);
    Assoc(waves, k, hw);
    CeilDivIs(blocks * k, hw, waves * k);
  }

  lemma WavesProduct(waves: nat, most: nat, k: nat, least: nat, blocks: nat, lcm: nat)
    requires waves <= most * k && least <= blocks && lcm == blocks * k
    ensures waves * least <= most * lcm
  {
    ProductMonotone(waves, most * k, least, blocks);
    Assoc(most, k, blocks);
    Commute(k, blocks);
  }

  lemma EnoughWaves(hw: nat, least: nat, blocks: nat, lcm: nat)
    requires hw > 0 && least <= blocks && Divides(blocks, lcm)
    ensures CeilDiv(lcm, hw) * least <= CeilDiv(blocks, hw) * lcm
  {
    var k: nat :| lcm == blocks * k;
    WavesScale(hw, blocks, k);
    WavesProduct(CeilDiv(lcm, hw), CeilDiv(blocks, hw), k, least, blocks, lcm);
  }

  lemma RatioBound(n: nat, c: nat, d: nat)
    requires d > 0 && n <= c * d
    ensures n as real / d as real <= c as real
  {
    var q, r := n as real / d as real, d as real;
    assert q * r == n as real;
    assert (c * d) as real == c as real * r;
    if q > c as real {
      Larger(q, c as real, r);
    }
  }

  lemma Larger(x: real, y: real, r: real)
    requires x > y && r > 0.0
    ensures x * r > y * r
  {
    assert (x - y) * r > 0.0;
  }

  /** The factor never exceeds the number of waves the kernel really needs. */
  lemma ScaleSound(hw: nat, p: Parallelism, blocks: nat, threads: nat)
    requires hw > 0 && p.Sound(blocks, threads)
    ensures ScaleFactor(hw, p.minBlocks, p.lcmBlocks) <= CeilDiv(blocks, hw) as real
  {
    EnoughWaves(hw, p.minBlocks, blocks, p.lcmBlocks);
    RatioBound(CeilDiv(p.lcmBlocks, hw) * p.minBlocks, CeilDiv(blocks, hw), p.lcmBlocks);
  }

  lemma CancelReal(n: nat, d: nat)
    requires d > 0
    ensures (n * d) as real / d as real == n as real
  {
    var x := n as real;
    assert (n * d) as real == x * d as real;
  }

  /** Once every choice is made, it is that number of waves. */
  lemma ScaleExact(hw: nat, blocks: nat, threads: nat)
    requires hw > 0 && blocks > 0
    ensures var p := Exactly(blocks, threads); ScaleFactor(hw, p.minBlocks, p.lcmBlocks) == CeilDiv(blocks, hw) as real
  {
    CancelReal(CeilDiv(blocks, hw), blocks);
  }
}
