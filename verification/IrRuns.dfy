/** Runs of decisions on a function body: merging, separating and lowering, in any order. */
module IrRuns {
  import opened Wrappers
  import opened SparseVecs
  import opened IrBodies
  import opened IrInvariants
  import opened IrLowering
  import opened IrLowered

  // ----- Merged and separate dimensions -----

  lemma {:induction false} WithoutOneToOne(dimMap: seq<Pair>, l: nat, r: nat)
    requires OneToOne(dimMap)
    ensures OneToOne(Without(dimMap, l, r))
  {
    if dimMap != [] {
      var rest := Without(dimMap[1..], l, r);
      assert OneToOne(dimMap[1..]);
      WithoutOneToOne(dimMap[1..], l, r);
      forall j | 0 <= j < |rest| ensures dimMap[0].0 != rest[j].0 && dimMap[0].1 != rest[j].1 {
        assert rest[j] in dimMap[1..];
        var k :| 0 <= k < |dimMap[1..]| && dimMap[1..][k] == rest[j];
        assert dimMap[k + 1] == rest[j];
      }
    }
  }

  lemma MergeExtends(b: Body, b': Body, o: Operand<Lowering>, l: nat, r: nat)
    requires Extends(b, b') && OperandActive(b, o)
    ensures OperandActive(b', MergeOperand(o, l, r))
  {
    OperandExtends(b, b', o);
  }

  lemma MergeKeepsActive(b: Body, l: nat, r: nat, b': Body)
    requires AllActive(b) && Merged(b, l, r, b')
    ensures AllActive(b')
  {
    forall i | b'.insts.Active(i) ensures InstActive(b', b'.insts.filled[i]) {
      var inst := b.insts.filled[i];
      assert InstActive(b, inst);
      forall k | 0 <= k < |inst.operands| ensures OperandActive(b', MergeOperand(inst.operands[k], l, r)) {
        MergeExtends(b, b', inst.operands[k], l, r);
      }
    }
    forall m | b'.blocks.Active(m) ensures BlockActive(b', b'.blocks.filled[m]) {
      assert BlockActive(b, b.blocks.filled[m]);
    }
    forall v | 0 <= v < |b'.indVars| ensures VarActive(b', b'.indVars[v]) {
      VarExtends(b, b', b.indVars[v]);
      MergeExtends(b, b', b.indVars[v].base, l, r);
    }
  }

  lemma MergeKeepsReserved(b: Body, l: nat, r: nat, b': Body)
    requires AllReserved(b) && Merged(b, l, r, b')
    ensures AllReserved(b')
  {
    forall i, k | Pending(b', i, k) ensures Pending(b, i, k) && LoweringOf(b', i, k) == LoweringOf(b, i, k) && PendingOk(b', i, k) {
      assert PendingOk(b, i, k);
      assert Reserved(b', LoweringOf(b, i, k));
    }
  }

  /** The layouts once the blocks changed, the blocks that became ready being queued. */
  lemma ReadyKeepsLayouts(b: Body, ready: seq<nat>, b': Body)
    requires LayoutsOk(b) && ListsReady(ready, b.blocks, b'.blocks)
    requires b'.blocks.filled.Keys == b.blocks.filled.Keys && b'.layouts == b.layouts && b'.toLower == b.toLower + ready
    requires b'.insts.filled.Keys == b.insts.filled.Keys
    requires forall i :: b.insts.Active(i) ==> b'.insts.filled[i].operator == b.insts.filled[i].operator
    requires forall i :: b.insts.Active(i) && NothingPending(b.insts.filled[i]) ==> NothingPending(b'.insts.filled[i])
    requires forall m :: b.blocks.Active(m) ==> b'.blocks.filled[m].uses == b.blocks.filled[m].uses
    requires forall m :: b.blocks.Active(m) && b.blocks.filled[m].maybe == [] ==> b'.blocks.filled[m].maybe == []
    ensures LayoutsOk(b')
  {
    forall id | id in b'.layouts ensures b'.blocks.Active(id) && TemporaryOk(b', id) {
      assert TemporaryOk(b, id);
    }
    forall i, j | 0 <= i < j < |b'.toLower| ensures b'.toLower[i] != b'.toLower[j] {
      if i < |b.toLower| <= j {
        assert b.toLower[i] in b.toLower && ready[j - |b.toLower|] in ready;
      }
    }
  }

  lemma MergeKeepsInv(b: Body, l: nat, r: nat, b': Body)
    requires Inv(b) && Merged(b, l, r, b')
    ensures Inv(b')
  {
    MergeKeepsActive(b, l, r, b');
    MergeKeepsReserved(b, l, r, b');
    var ready :| ListsReady(ready, b.blocks, b'.blocks) && b'.toLower == b.toLower + ready;
    ReadyKeepsLayouts(b, ready, b');
  }

  lemma {:induction false} WithoutCounts(dimMap: seq<Pair>, l: nat, r: nat, p: Pair)
    ensures multiset(Without(dimMap, l, r))[p] == if p == (l, r) || p == (r, l) then 0 else multiset(dimMap)[p]
  {
    if dimMap != [] {
      WithoutCounts(dimMap[1..], l, r, p);
      assert dimMap == [dimMap[0]] + dimMap[1..];
    }
  }

  /** The map lost the pair, in both directions, and nothing else. */
  ghost predicate LosesPair(before: seq<Pair>, after: seq<Pair>, l: nat, r: nat) {
    forall p: Pair :: multiset(after)[p] == if p == (l, r) || p == (r, l) then 0 else multiset(before)[p]
  }

  /** The operand is the same but for the pair its map lost. */
  ghost predicate OperandLosesPair(o: Operand<Lowering>, o': Operand<Lowering>, l: nat, r: nat) {
    match o
    case Value(src, dimMap, scope) => o'.Value? && o'.src == src && o'.scope == scope && LosesPair(dimMap, o'.dimMap, l, r)
    case Reduce(init, dimMap, dims) => o'.Reduce? && o'.init == init && o'.dims == dims && LosesPair(dimMap, o'.dimMap, l, r)
    case _ => o' == o
  }

  lemma MergedOperand(o: Operand<Lowering>, l: nat, r: nat)
    ensures OperandLosesPair(o, MergeOperand(o, l, r), l, r)
  {
    if o.HasMap() {
      forall p: Pair { WithoutCounts(o.dimMap, l, r, p); }
    }
  }

  /** Merging two dimensions takes their pair out of every operand, base and undecided layout, and changes nothing else. */
  lemma MergeRemovesPair(b: Body, l: nat, r: nat, b': Body)
    requires Merged(b, l, r, b')
    ensures b'.insts.filled.Keys == b.insts.filled.Keys && |b'.indVars| == |b.indVars| && b'.blocks.filled.Keys == b.blocks.filled.Keys
    ensures forall i :: b.insts.Active(i) ==>
              var (inst, inst') := (b.insts.filled[i], b'.insts.filled[i]);
              && inst'.operator == inst.operator && inst'.iterDims == inst.iterDims && |inst'.operands| == |inst.operands|
              && forall k :: 0 <= k < |inst.operands| ==> OperandLosesPair(inst.operands[k], inst'.operands[k], l, r)
    ensures forall v :: 0 <= v < |b.indVars| ==>
              && b'.indVars[v].increments == b.indVars[v].increments
              && OperandLosesPair(b.indVars[v].base, b'.indVars[v].base, l, r)
    ensures forall m :: b.blocks.Active(m) ==>
              && b'.blocks.filled[m].mapped == b.blocks.filled[m].mapped && b'.blocks.filled[m].uses == b.blocks.filled[m].uses
              && LosesPair(b.blocks.filled[m].maybe, b'.blocks.filled[m].maybe, l, r)
  {
    forall i, k | b.insts.Active(i) && 0 <= k < |b.insts.filled[i].operands|
      ensures OperandLosesPair(b.insts.filled[i].operands[k], b'.insts.filled[i].operands[k], l, r)
    {
      MergedOperand(b.insts.filled[i].operands[k], l, r);
    }
    forall v | 0 <= v < |b.indVars| ensures OperandLosesPair(b.indVars[v].base, b'.indVars[v].base, l, r) {
      MergedOperand(b.indVars[v].base, l, r);
    }
    forall m | b.blocks.Active(m) ensures LosesPair(b.blocks.filled[m].maybe, b'.blocks.filled[m].maybe, l, r) {
      forall p: Pair { WithoutCounts(b.blocks.filled[m].maybe, l, r, p); }
    }
  }

  lemma SeparateKeepsActive(b: Body, l: nat, r: nat, b': Body)
    requires AllActive(b) && NotMerged(b, l, r, b')
    ensures AllActive(b')
  {
    forall i | b'.insts.Active(i) ensures InstActive(b', b'.insts.filled[i]) {
      InstExtends(b, b', b.insts.filled[i]);
    }
    forall m | b'.blocks.Active(m) ensures BlockActive(b', b'.blocks.filled[m]) {
      assert BlockActive(b, b.blocks.filled[m]);
    }
    forall v | 0 <= v < |b'.indVars| ensures VarActive(b', b'.indVars[v]) {
      VarExtends(b, b', b.indVars[v]);
    }
  }

  lemma SeparateKeepsReserved(b: Body, l: nat, r: nat, b': Body)
    requires AllReserved(b) && NotMerged(b, l, r, b')
    ensures AllReserved(b')
  {
    forall i, k | Pending(b', i, k) ensures Pending(b, i, k) && LoweringOf(b', i, k) == LoweringOf(b, i, k) && PendingOk(b', i, k) {
      assert PendingOk(b, i, k);
      assert Reserved(b', LoweringOf(b, i, k));
    }
  }

  lemma SeparateKeepsInv(b: Body, l: nat, r: nat, b': Body)
    requires Inv(b) && NotMerged(b, l, r, b')
    ensures Inv(b')
  {
    SeparateKeepsActive(b, l, r, b');
    SeparateKeepsReserved(b, l, r, b');
    var ready :| ListsReady(ready, b.blocks, b'.blocks) && b'.toLower == b.toLower + ready;
    ReadyKeepsLayouts(b, ready, b');
  }

  // ----- Lowered layouts -----

  lemma SwapRemoveOk(s: seq<nat>, x: nat)
    requires x in s && forall i, j :: 0 <= i < j < |s| ==> s[i] != s[j]
    ensures
      var r := SwapRemove(s, x);
      && (forall i, j :: 0 <= i < j < |r| ==> r[i] != r[j])
      && (forall y :: y in r <==> y in s && y != x)
  {
    var p, r, n := Position(s, x), SwapRemove(s, x), |s| - 1;
    forall y ensures y in r <==> y in s && y != x {
      if y in s && y != x {
        var q :| 0 <= q < |s| && s[q] == y;
        assert if q == n then r[p] == y else r[q] == y;
      }
    }
  }

  lemma TwoAccesses(insts: Slots<Inst<Lowering>>, u: nat, v: nat, mem: nat, st: nat, ld: nat)
    requires u != v && insts.Active(u) && insts.Active(v)
    requires insts.filled[u].operator == TmpStore(mem) && insts.filled[v].operator == TmpLoad(mem)
    ensures LowerAccesses(insts, [u, v], mem, st, ld) ==
            Some(insts.Set(u, LowerAccess(insts.filled[u], st, ld)).Set(v, LowerAccess(insts.filled[v], st, ld)))
  {
    assert [u, v][..1] == [u] && [u][..0] == [];
    assert LowerAccesses(insts, [], mem, st, ld) == Some(insts);
    assert LowerAccesses(insts, [u], mem, st, ld) == Some(insts.Set(u, LowerAccess(insts.filled[u], st, ld)));
  }

  /** The instructions once the two accesses of a block were lowered. */
  function AccessedInsts(b: Body, id: nat): Slots<Inst<Lowering>>
    requires LayoutsOk(b) && id in b.layouts
  {
    assert TemporaryOk(b, id);
    var uses, st, ld := b.blocks.filled[id].uses, |b.indVars|, |b.indVars| + 1;
    b.insts.Set(uses[0], LowerAccess(b.insts.filled[uses[0]], st, ld)).Set(uses[1], LowerAccess(b.insts.filled[uses[1]], st, ld))
  }

  lemma AccessesLowered(b: Body, id: nat)
    requires LayoutsOk(b) && id in b.layouts
    ensures LowerAccesses(b.insts, b.blocks.filled[id].uses, id, |b.indVars|, |b.indVars| + 1) == Some(AccessedInsts(b, id))
  {
    assert TemporaryOk(b, id);
    var uses := b.blocks.filled[id].uses;
    assert uses == [uses[0], uses[1]];
    TwoAccesses(b.insts, uses[0], uses[1], id, |b.indVars|, |b.indVars| + 1);
  }

  ghost predicate DimsOk(b: Body, dims: seq<nat>) {
    NoRepeat(dims) && forall d :: d in dims ==> b.dims.Active(d)
  }

  lemma {:induction false} IncrementAt(mem: nat, dims: seq<nat>, k: nat)
    requires k < |dims|
    ensures Increments(mem, dims)[k] == Increment(dims[|dims| - 1 - k], Elements(mem, dims[|dims| - k..]))
  {
    if k < |dims| - 1 {
      IncrementAt(mem, dims[1..], k);
      assert dims[1..][|dims| - 1 - k..] == dims[|dims| - k..];
    }
  }

  /** The variable of an access can be made exactly when its dimensions exist and are distinct. */
  lemma GenIndexIff(b: Body, mem: nat, dims: seq<nat>)
    ensures GenIndex(b, mem, dims) ==
            if DimsOk(b, dims) then Some(b.(indVars := b.indVars + [IndVar(Increments(mem, dims), Address(mem))])) else None
  {
    RepeatedIncrement(mem, dims);
  }

  lemma RepeatedIncrement(mem: nat, dims: seq<nat>)
    ensures NoRepeat(dims) <==> OnePerDim(Increments(mem, dims))
  {
    var incs, n := Increments(mem, dims), |dims|;
    if NoRepeat(dims) {
      forall i, j | 0 <= i < j < n ensures incs[i].dim != incs[j].dim {
        IncrementAt(mem, dims, i);
        IncrementAt(mem, dims, j);
        assert dims[n - 1 - j] != dims[n - 1 - i];
      }
    } else {
      var i, j :| 0 <= i < j < n && dims[i] == dims[j];
      IncrementAt(mem, dims, n - 1 - j);
      IncrementAt(mem, dims, n - 1 - i);
      assert incs[n - 1 - j].dim == incs[n - 1 - i].dim;
    }
  }

  lemma GenVarActive(b: Body, b': Body, mem: nat, dims: seq<nat>)
    requires DimsOk(b, dims) && b.blocks.Active(mem) && Extends(b, b')
    ensures VarActive(b', IndVar(Increments(mem, dims), Address(mem)))
  {
    var incs, n := Increments(mem, dims), |dims|;
    forall k | 0 <= k < n
      ensures b'.dims.Active(incs[k].dim) && ExtentActive(b', incs[k].step) && incs[k].dim == dims[n - 1 - k]
    {
      IncrementAt(mem, dims, k);
      assert dims[n - 1 - k] in dims;
      forall d | d in dims[n - k..] ensures b'.dims.Active(d) {
        assert d in dims;
      }
    }
  }

  function AccessVars(b: Body, id: nat, st: seq<nat>, ld: seq<nat>): (r: seq<IndVar<Lowering>>)
    ensures |r| == |b.indVars| + 2
  {
    b.indVars + [IndVar(Increments(id, st), Address(id))] + [IndVar(Increments(id, ld), Address(id))]
  }

  /** A layout can be lowered exactly when it is queued, along dimensions that exist and are distinct. */
  lemma LowerLayoutIff(b: Body, id: nat, st: seq<nat>, ld: seq<nat>)
    requires Inv(b)
    ensures LowerLayout(b, id, st, ld).Done? <==> id in b.toLower && DimsOk(b, st) && DimsOk(b, ld)
    ensures LowerLayout(b, id, st, ld).Done? ==>
              LowerLayout(b, id, st, ld).body ==
              b.(insts := AccessedInsts(b, id), indVars := AccessVars(b, id, st, ld),
                 layouts := b.layouts - {id}, toLower := SwapRemove(b.toLower, id))
  {
    if id in b.toLower {
      var b0 := b.(layouts := b.layouts - {id}, toLower := SwapRemove(b.toLower, id));
      GenIndexIff(b0, id, st);
      if DimsOk(b, st) {
        GenIndexIff(GenIndex(b0, id, st).value, id, ld);
      }
      AccessesLowered(b, id);
    }
  }

  lemma AccessActive(b: Body, b': Body, inst: Inst<Lowering>, st: nat, ld: nat)
    requires Extends(b, b') && InstActive(b, inst) && st < |b'.indVars| && ld < |b'.indVars|
    ensures InstActive(b', LowerAccess(inst, st, ld))
  {
    InstExtends(b, b', inst);
    var inst' := LowerAccess(inst, st, ld);
    forall k | 0 <= k < |inst'.operands| ensures OperandActive(b', inst'.operands[k]) {
      if k > 0 {
        assert inst'.operands[k] == inst.operands[k - 1];
      }
    }
  }

  ghost predicate LayoutLowered(b: Body, id: nat, st: seq<nat>, ld: seq<nat>, b': Body) {
    && Inv(b) && id in b.toLower && DimsOk(b, st) && DimsOk(b, ld)
    && b' == b.(insts := AccessedInsts(b, id), indVars := AccessVars(b, id, st, ld),
                layouts := b.layouts - {id}, toLower := SwapRemove(b.toLower, id))
  }

  lemma LayoutKeepsActive(b: Body, id: nat, st: seq<nat>, ld: seq<nat>, b': Body)
    requires LayoutLowered(b, id, st, ld, b')
    ensures AllActive(b')
  {
    LayoutExtends(b, id, st, ld, b');
    forall i | b'.insts.Active(i) ensures InstActive(b', b'.insts.filled[i]) {
      LoweredInstActive(b, id, st, ld, b', i);
    }
    forall m | b'.blocks.Active(m) ensures BlockActive(b', b'.blocks.filled[m]) {
      BlockExtends(b, b', b.blocks.filled[m]);
    }
    LoweredVarsActive(b, id, st, ld, b');
  }

  lemma LayoutExtends(b: Body, id: nat, st: seq<nat>, ld: seq<nat>, b': Body)
    requires LayoutLowered(b, id, st, ld, b')
    ensures Extends(b, b') && b'.insts.filled.Keys == b.insts.filled.Keys
    ensures b'.dims == b.dims && b'.mappings == b.mappings && b'.blocks == b.blocks
  {
    assert TemporaryOk(b, id);
  }

  lemma LoweredInstActive(b: Body, id: nat, st: seq<nat>, ld: seq<nat>, b': Body, i: nat)
    requires LayoutLowered(b, id, st, ld, b') && Extends(b, b') && b.insts.Active(i) && b'.insts.Active(i)
    ensures InstActive(b', b'.insts.filled[i])
  {
    assert TemporaryOk(b, id);
    InstExtends(b, b', b.insts.filled[i]);
    AccessActive(b, b', b.insts.filled[i], |b.indVars|, |b.indVars| + 1);
  }

  lemma LoweredVarsActive(b: Body, id: nat, st: seq<nat>, ld: seq<nat>, b': Body)
    requires LayoutLowered(b, id, st, ld, b') && Extends(b, b')
    ensures forall v :: 0 <= v < |b'.indVars| ==> VarActive(b', b'.indVars[v])
  {
    GenVarActive(b, b', id, st);
    GenVarActive(b, b', id, ld);
    forall v | 0 <= v < |b'.indVars| ensures VarActive(b', b'.indVars[v]) {
      if v < |b.indVars| {
        VarExtends(b, b', b.indVars[v]);
      }
    }
  }

  lemma LayoutKeepsReserved(b: Body, id: nat, st: seq<nat>, ld: seq<nat>, b': Body)
    requires LayoutLowered(b, id, st, ld, b')
    ensures AllReserved(b')
  {
    assert TemporaryOk(b, id);
    forall i, k | Pending(b', i, k) ensures Pending(b, i, k) && LoweringOf(b', i, k) == LoweringOf(b, i, k) && PendingOk(b', i, k) {
      StaysOut(b.insts.filled[i], |b.indVars|, |b.indVars| + 1);
      assert PendingOk(b, i, k);
      assert Reserved(b', LoweringOf(b, i, k));
    }
  }

  lemma StaysOut(inst: Inst<Lowering>, st: nat, ld: nat)
    ensures NothingPending(inst) ==> NothingPending(LowerAccess(inst, st, ld))
  {
    var inst' := LowerAccess(inst, st, ld);
    assert forall k :: 0 < k < |inst'.operands| ==> inst'.operands[k] == inst.operands[k - 1];
  }

  lemma LayoutKeepsLayouts(b: Body, id: nat, st: seq<nat>, ld: seq<nat>, b': Body)
    requires LayoutLowered(b, id, st, ld, b')
    ensures LayoutsOk(b')
  {
    SwapRemoveOk(b.toLower, id);
    var uses := b.blocks.filled[id].uses;
    assert TemporaryOk(b, id);
    forall m | m in b'.layouts ensures b'.blocks.Active(m) && TemporaryOk(b', m) {
      assert TemporaryOk(b, m);
      assert b.insts.filled[uses[0]].operator == TmpStore(id) && b.insts.filled[uses[1]].operator == TmpLoad(id);
    }
  }

  // ----- Lowering, exactly -----

  lemma {:induction false} ActivateDistinct(b: Body, ms: seq<NewMapping>)
    requires Activate(b, ms).Some?
    ensures b.dims.filled.Keys <= Activate(b, ms).value.dims.filled.Keys
    ensures forall k :: 0 <= k < |ms| ==> Activate(b, ms).value.dims.Active(ms[k].dim)
    ensures forall j, k :: 0 <= j < k < |ms| ==> ms[j].dim != ms[k].dim
  {
    if ms != [] {
      var n := |ms| - 1;
      ActivateDistinct(b, ms[..n]);
      var b1 := Activate(b, ms[..n]).value;
      assert forall k :: 0 <= k < n ==> ms[..n][k] == ms[k];
    }
  }

  lemma SameDim(l: Lowering, dimMap: seq<Pair>, p: nat, q: nat)
    requires Known(l, dimMap) && p < q < |dimMap| && (dimMap[p].0 == dimMap[q].0 || dimMap[p].1 == dimMap[q].1)
    ensures
      var ms := StoreMappings(l, dimMap) + LoadMappings(l, dimMap);
      exists j, k :: 0 <= j < k < |ms| && ms[j].dim == ms[k].dim
  {
    var n, ms := |dimMap|, StoreMappings(l, dimMap) + LoadMappings(l, dimMap);
    assert ms[p] == StoreMappings(l, dimMap)[p] && ms[q] == StoreMappings(l, dimMap)[q];
    assert ms[n + p] == LoadMappings(l, dimMap)[p] && ms[n + q] == LoadMappings(l, dimMap)[q];
    assert ms[p].dim == ms[q].dim || ms[n + p].dim == ms[n + q].dim;
  }

  lemma RepeatedPanics(b: Body, i: nat, k: nat)
    requires Pending(b, i, k) && !OneToOne(b.insts.filled[i].operands[k].dimMap)
    ensures LowerDimMap(b, i, k) == Panic
  {
    var o, l := b.insts.filled[i].operands[k], LoweringOf(b, i, k);
    var p, q :| 0 <= p < q < |o.dimMap| && (o.dimMap[p].0 == o.dimMap[q].0 || o.dimMap[p].1 == o.dimMap[q].1);
    if Known(l, o.dimMap) {
      SameDim(l, o.dimMap, p, q);
      NotActivated(b, o.src, l, StoreMappings(l, o.dimMap), LoadMappings(l, o.dimMap));
      assert LowerDimMap(b, i, k) == LowerValue(b, i, k, o.src, o.dimMap, l);
    }
  }

  lemma NotActivated(b: Body, src: nat, l: Lowering, stores: seq<NewMapping>, loads: seq<NewMapping>)
    requires |stores| == |loads|
    requires exists j, k :: 0 <= j < k < |stores + loads| && (stores + loads)[j].dim == (stores + loads)[k].dim
    ensures CreateObjects(b, src, l, stores, loads) == None
  {
    if Activate(b, stores + loads).Some? {
      ActivateDistinct(b, stores + loads);
      assert false;
    }
  }

  lemma NoPairPanics(b: Body, i: nat, k: nat)
    requires Pending(b, i, k) && b.insts.filled[i].operands[k].dimMap == []
    ensures LowerDimMap(b, i, k) == Panic
  {
    var o, l := b.insts.filled[i].operands[k], LoweringOf(b, i, k);
    assert Zip(StoreMappings(l, o.dimMap), LoadMappings(l, o.dimMap)) == [];
    assert LowerDimMap(b, i, k) == LowerValue(b, i, k, o.src, o.dimMap, l);
  }

  /** An operand is lowered exactly when it may be, maps some dimensions, and maps none of them twice. */
  lemma LowerIff(b: Body, i: nat, k: nat)
    requires Inv(b)
    ensures LowerDimMap(b, i, k).Done? <==>
            Pending(b, i, k) && b.insts.filled[i].operands[k].dimMap != [] && OneToOne(b.insts.filled[i].operands[k].dimMap)
  {
    if Pending(b, i, k) {
      if b.insts.filled[i].operands[k].dimMap == [] {
        NoPairPanics(b, i, k);
      } else if !OneToOne(b.insts.filled[i].operands[k].dimMap) {
        RepeatedPanics(b, i, k);
      } else {
        LowerKeepsInv(b, i, k);
      }
    }
  }

  // ----- Runs -----

  datatype Event = Lower(i: nat, k: nat) | Merge(l: nat, r: nat) | Separate(l: nat, r: nat) | Layout(id: nat, st: seq<nat>, ld: seq<nat>)

  ghost predicate Next(b: Body, e: Event, b': Body) {
    match e
    case Lower(i, k) => LowerDimMap(b, i, k) == Done(b')
    case Merge(l, r) => Merged(b, l, r, b')
    case Separate(l, r) => NotMerged(b, l, r, b')
    case Layout(id, st, ld) => LowerLayout(b, id, st, ld) == Done(b')
  }

  ghost predicate Run(run: seq<Body>, events: seq<Event>) {
    |run| == |events| + 1 && forall i :: 0 <= i < |events| ==> Next(run[i], events[i], run[i + 1])
  }

  lemma NextKeepsInv(b: Body, e: Event, b': Body)
    requires Inv(b) && Next(b, e, b')
    ensures Inv(b')
  {
    match e
    case Lower(i, k) =>
      LowerIff(b, i, k);
      LowerKeepsInv(b, i, k);
    case Merge(l, r) => MergeKeepsInv(b, l, r, b');
    case Separate(l, r) => SeparateKeepsInv(b, l, r, b');
    case Layout(id, st, ld) =>
      LowerLayoutIff(b, id, st, ld);
      LayoutKeepsActive(b, id, st, ld, b');
      LayoutKeepsReserved(b, id, st, ld, b');
      LayoutKeepsLayouts(b, id, st, ld, b');
  }

  /** Whatever is decided, in whatever order, active objects refer to active ones and reserved identifiers stay apart. */
  lemma {:induction false} RunInv(run: seq<Body>, events: seq<Event>, n: nat)
    requires Run(run, events) && Inv(run[0]) && n < |run|
    ensures Inv(run[n])
  {
    if n > 0 {
      RunInv(run, events, n - 1);
      assert Next(run[n - 1], events[n - 1], run[n - 1 + 1]);
      NextKeepsInv(run[n - 1], events[n - 1], run[n]);
    }
  }

  // ----- Queued layouts -----

  /** The block has no undecided pair of dimensions left. */
  ghost predicate Decided(b: Body, id: nat) {
    b.blocks.Active(id) && b.blocks.filled[id].maybe == []
  }

  ghost predicate Queues(b: Body, b': Body, id: nat) {
    id !in b.toLower && id in b'.toLower
  }

  lemma LowerCreates(b: Body, i: nat, k: nat, id: nat)
    requires Inv(b) && LowerDimMap(b, i, k).Done?
    ensures var b' := LowerDimMap(b, i, k).body;
            && b'.toLower == b.toLower
            && (b.blocks.Active(id) ==> b'.blocks.Active(id) && b'.blocks.filled[id] == b.blocks.filled[id])
            && (b'.blocks.Active(id) && !b.blocks.Active(id) ==> b'.blocks.filled[id].maybe != [])
  {
    LowerIff(b, i, k);
    var stores, loads, b1 := LowerSucceeds(b, i, k);
    LoweredFacts(b, i, k, stores, loads, b1, LowerDimMap(b, i, k).body);
    assert |Zip(stores, loads)| > 0;
  }

  /** A layout is queued by the decision on its last pair, which stays decided. */
  lemma QueueStep(b: Body, e: Event, b': Body, id: nat)
    requires Inv(b) && Next(b, e, b')
    ensures Decided(b, id) ==> Decided(b', id)
    ensures Queues(b, b', id) <==> Decided(b', id) && !Decided(b, id)
  {
    match e
    case Lower(i, k) => LowerCreates(b, i, k, id);
    case Merge(_, _) =>
    case Separate(_, _) =>
    case Layout(l, st, ld) =>
      LowerLayoutIff(b, l, st, ld);
      SwapRemoveOk(b.toLower, l);
  }

  lemma {:induction false} StaysDecided(run: seq<Body>, events: seq<Event>, i: nat, j: nat, id: nat)
    requires Run(run, events) && Inv(run[0]) && i <= j < |run| && Decided(run[i], id)
    ensures Decided(run[j], id)
    decreases j - i
  {
    if i < j {
      RunInv(run, events, i);
      assert Next(run[i], events[i], run[i + 1]);
      QueueStep(run[i], events[i], run[i + 1], id);
      StaysDecided(run, events, i + 1, j, id);
    }
  }

  /** No layout is queued twice in a run. */
  lemma QueuedOnce(run: seq<Body>, events: seq<Event>, i: nat, j: nat, id: nat)
    requires Run(run, events) && Inv(run[0]) && i < |events| && j < |events|
    requires Queues(run[i], run[i + 1], id) && Queues(run[j], run[j + 1], id)
    ensures i == j
  {
    RunInv(run, events, i);
    RunInv(run, events, j);
    assert Next(run[i], events[i], run[i + 1]) && Next(run[j], events[j], run[j + 1]);
    QueueStep(run[i], events[i], run[i + 1], id);
    QueueStep(run[j], events[j], run[j + 1], id);
    if i < j {
      StaysDecided(run, events, i + 1, j, id);
    } else if j < i {
      StaysDecided(run, events, j + 1, i, id);
    }
  }

  /** Once its pairs are decided, the layout of a block made during the run was queued by one of the decisions. */
  lemma {:induction false} DecidedWasQueued(run: seq<Body>, events: seq<Event>, n: nat, id: nat)
    requires Run(run, events) && Inv(run[0]) && n < |run|
    requires Decided(run[n], id) && !Decided(run[0], id)
    ensures exists i :: 0 <= i < n && Queues(run[i], run[i + 1], id)
  {
    if n > 0 {
      RunInv(run, events, n - 1);
      assert Next(run[n - 1], events[n - 1], run[n - 1 + 1]);
      QueueStep(run[n - 1], events[n - 1], run[n], id);
      if Decided(run[n - 1], id) {
        DecidedWasQueued(run, events, n - 1, id);
      } else {
        assert Queues(run[n - 1], run[n - 1 + 1], id);
      }
    }
  }

  // ----- Filled slots -----

  /** The slots filled at a step were holes declared beforehand, and filled slots stay filled. */
  lemma SlotsFilledOnce(b: Body, e: Event, b': Body)
    requires Inv(b) && Next(b, e, b')
    ensures b.insts.filled.Keys <= b'.insts.filled.Keys && b.dims.filled.Keys <= b'.dims.filled.Keys
    ensures b.mappings.filled.Keys <= b'.mappings.filled.Keys && b.blocks.filled.Keys <= b'.blocks.filled.Keys
    ensures forall i :: b'.insts.Active(i) && !b.insts.Active(i) ==> e.Lower? && Pending(b, e.i, e.k) && i in Insts(LoweringOf(b, e.i, e.k))
    ensures forall d :: b'.dims.Active(d) && !b.dims.Active(d) ==> e.Lower? && Pending(b, e.i, e.k) && d in Dims(LoweringOf(b, e.i, e.k))
    ensures forall m :: b'.mappings.Active(m) && !b.mappings.Active(m) ==> e.Lower? && Pending(b, e.i, e.k) && m in Mappings(LoweringOf(b, e.i, e.k))
    ensures forall m :: b'.blocks.Active(m) && !b.blocks.Active(m) ==> e.Lower? && Pending(b, e.i, e.k) && m == LoweringOf(b, e.i, e.k).mem
  {
    match e
    case Lower(i, k) =>
      LowerIff(b, i, k);
      var stores, loads, b1 := LowerSucceeds(b, i, k);
      LoweredInsts(b, i, k, stores, loads, b1, b');
      LoweredExtends(b, i, k, stores, loads, b1, b');
    case Merge(_, _) =>
    case Separate(_, _) =>
    case Layout(id, st, ld) =>
      LowerLayoutIff(b, id, st, ld);
      assert TemporaryOk(b, id);
  }

  // ----- What lowering means -----

  /**
   The value goes through memory as it went between the loops: each dimension of its source is
   stored along a new one, laid out with the one it is loaded along, which stands for the
   dimension of the destination it was mapped to.
   */
  lemma LowerComposes(b: Body, i: nat, k: nat)
    requires CanLower(b, i, k)
    ensures LowerDimMap(b, i, k).Done?
    ensures
      var o, l, b' := b.insts.filled[i].operands[k], LoweringOf(b, i, k), LowerDimMap(b, i, k).body;
      && l.store in b'.insts.filled && l.mem in b'.blocks.filled && i in b'.insts.filled && k < |b'.insts.filled[i].operands|
      && b'.insts.filled[l.store].operator == TmpStore(l.mem) && b'.insts.filled[l.load].operator == TmpLoad(l.mem)
      && b'.insts.filled[l.store].operands == [Value(o.src, DimMapOf(b'.insts.filled[l.store].operands[0]), Local)]
      && b'.insts.filled[i].operands[k] == Value(l.load, DimMapOf(b'.insts.filled[i].operands[k]), Local)
      && Composes(DimMapOf(b'.insts.filled[l.store].operands[0]), b'.blocks.filled[l.mem].maybe,
                  DimMapOf(b'.insts.filled[i].operands[k]), o.dimMap)
  {
    FreshToLower(b, i, k);
    var o, l := b.insts.filled[i].operands[k], LoweringOf(b, i, k);
    assert Known(l, o.dimMap);
    var stores, loads := StoreMappings(l, o.dimMap), LoadMappings(l, o.dimMap);
    CreateOk(b, o.src, l, stores, loads);
    var b1 := CreateObjects(b, o.src, l, stores, loads).value;
    StillThere(b, i, o.src, l, stores, loads, b1);
    assert LowerDimMap(b, i, k) == LowerValue(b, i, k, o.src, o.dimMap, l);
    MappingsCompose(l, o.dimMap);
    NowLocal(b, i, k, o.src, l, stores, loads, b1);
  }

  lemma MappingsCompose(l: Lowering, dimMap: seq<Pair>)
    requires Known(l, dimMap)
    ensures
      var stores, loads := StoreMappings(l, dimMap), LoadMappings(l, dimMap);
      Composes(OldToNew(stores), Zip(stores, loads), NewToOld(loads), dimMap)
  {
  }

  lemma NowLocal(b: Body, i: nat, k: nat, src: nat, l: Lowering, stores: seq<NewMapping>, loads: seq<NewMapping>, b1: Body)
    requires |stores| == |loads| && Created(b, src, l, stores, loads, b1)
    requires b.insts.Active(i) && b.insts.Hole(l.store) && b.insts.Hole(l.load) && l.store != l.load
    requires b1.insts.Active(i) && b1.insts.filled[i] == b.insts.filled[i] && k < |b.insts.filled[i].operands|
    ensures
      var b' := SetOperand(b1, i, k, Value(l.load, NewToOld(loads), Local));
      && l.store in b'.insts.filled && l.load in b'.insts.filled && l.mem in b'.blocks.filled
      && b'.insts.filled[l.store] == StoreInst(src, l, stores) && b'.insts.filled[l.load] == LoadInst(l, loads)
      && b'.blocks.filled[l.mem].maybe == Zip(stores, loads)
      && b'.insts.filled[i].operands == b.insts.filled[i].operands[k := Value(l.load, NewToOld(loads), Local)]
  {
  }

  /** Three maps, one after the other, are the fourth one. */
  ghost predicate Composes(first: seq<Pair>, second: seq<Pair>, third: seq<Pair>, all: seq<Pair>) {
    && |first| == |second| == |third| == |all|
    && forall j :: 0 <= j < |all| ==>
         first[j].0 == all[j].0 && first[j].1 == second[j].0 && second[j].1 == third[j].0 && third[j].1 == all[j].1
  }

  lemma {:induction false} OnlyAndWithout(dimMap: seq<Pair>, l: nat, r: nat)
    ensures multiset(Only(dimMap, l, r)) + multiset(Without(dimMap, l, r)) == multiset(dimMap)
  {
    if dimMap != [] {
      OnlyAndWithout(dimMap[1..], l, r);
      assert dimMap == [dimMap[0]] + dimMap[1..];
    }
  }

  lemma SeparateConserves(b: Body, l: nat, r: nat, b': Body, id: nat)
    requires NotMerged(b, l, r, b') && b.blocks.Active(id)
    ensures b'.blocks.Active(id)
    ensures
      var block, block' := b.blocks.filled[id], b'.blocks.filled[id];
      multiset(block'.mapped) + multiset(block'.maybe) == multiset(block.mapped) + multiset(block.maybe)
  {
    OnlyAndWithout(b.blocks.filled[id].maybe, l, r);
  }

  /** The pairs a block maps or may still map: only merging their dimensions takes some away. */
  lemma PairsConserved(b: Body, e: Event, b': Body, id: nat)
    requires Inv(b) && Next(b, e, b') && b.blocks.Active(id)
    ensures b'.blocks.Active(id)
    ensures
      var block, block' := b.blocks.filled[id], b'.blocks.filled[id];
      if e.Merge? then block'.mapped == block.mapped && multiset(block'.maybe) == multiset(block.maybe) - multiset(Only(block.maybe, e.l, e.r))
      else multiset(block'.mapped) + multiset(block'.maybe) == multiset(block.mapped) + multiset(block.maybe)
  {
    match e
    case Lower(i, k) => LowerCreates(b, i, k, id);
    case Merge(l, r) => OnlyAndWithout(b.blocks.filled[id].maybe, l, r);
    case Separate(l, r) => SeparateConserves(b, l, r, b', id);
    case Layout(l, st, ld) => LowerLayoutIff(b, l, st, ld);
  }
}
