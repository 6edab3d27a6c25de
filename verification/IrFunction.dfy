/** The function whose body is updated in place as dimensions are decided and operands lowered. */
module IrFunctions {
  import opened Wrappers
  import opened SparseVecs
  import opened IrBodies

  lemma {:induction false} ActivateConcat(b: Body, a: seq<NewMapping>, c: seq<NewMapping>)
    ensures Activate(b, a + c) ==
            match Activate(b, a) case None => None case Some(b') => Activate(b', c)
  {
    if c == [] {
      assert a + c == a;
    } else {
      var n := |c| - 1;
      assert (a + c)[..|a + c| - 1] == a + c[..n];
      ActivateConcat(b, a, c[..n]);
    }
  }

  lemma {:induction false} ActivateFails(b: Body, ms: seq<NewMapping>, k: nat)
    requires k <= |ms| && Activate(b, ms[..k]) == None
    ensures Activate(b, ms) == None
  {
    assert ms == ms[..k] + ms[k..];
    ActivateConcat(b, ms[..k], ms[k..]);
  }

  class Function {
    var insts: Slots<Inst<Lowering>>
    var dims: Slots<Dim>
    var mappings: Slots<Pair>
    var blocks: Slots<Block>
    var indVars: seq<IndVar<Lowering>>
    var layouts: set<nat>
    var toLower: seq<nat>

    function State(): Body
      reads this
    {
      Body(insts, dims, mappings, blocks, indVars, layouts, toLower)
    }

    constructor (b: Body)
      ensures State() == b
    {
      insts, dims, mappings, blocks := b.insts, b.dims, b.mappings, b.blocks;
      indVars, layouts, toLower := b.indVars, b.layouts, b.toLower;
    }

    /** Creates dimensions with reserved identifiers and maps them to existing ones. */
    method ActivateMappedDims(ms: seq<NewMapping>) returns (ok: bool)
      modifies this
      ensures Activate(old(State()), ms) == if ok then Some(State()) else None
    {
      for k := 0 to |ms|
        invariant Activate(old(State()), ms[..k]) == Some(State())
      {
        var m := ms[k];
        assert ms[..k + 1][..k] == ms[..k];
        if !dims.Active(m.old_) || !dims.Hole(m.dim) {
          ActivateFails(old(State()), ms, k + 1);
          return false;
        }
        var created := dims.Set(m.dim, Dim({}));
        if !mappings.Hole(m.id) {
          ActivateFails(old(State()), ms, k + 1);
          return false;
        }
        dims := Register(Register(created, m.old_, m.id), m.dim, m.id);
        mappings := mappings.Set(m.id, (m.old_, m.dim));
      }
      assert ms[..|ms|] == ms;
      ok := true;
    }

    method SetLazyTmp(mem: nat, pairs: seq<Pair>) returns (ok: bool)
      modifies this
      ensures CreateBlock(old(State()), mem, pairs) == if ok then Some(State()) else None
    {
      if pairs == [] || !blocks.Hole(mem) {
        return false;
      }
      layouts := layouts + {mem};
      blocks := blocks.Set(mem, Block([], [], pairs));
      ok := true;
    }

    method AddInst(id: nat, inst: Inst<Lowering>) returns (ok: bool)
      requires !inst.operator.Plain?
      modifies this
      ensures CreateInst(old(State()), id, inst) == if ok then Some(State()) else None
    {
      var created := CreateInst(State(), id, inst);
      if created.None? {
        return false;
      }
      var block := blocks.filled[inst.operator.mem];
      blocks := blocks.Set(inst.operator.mem, block.(uses := block.uses + [id]));
      insts := insts.Set(id, inst);
      ok := true;
    }

    method CreateLowered(src: nat, l: Lowering, stores: seq<NewMapping>, loads: seq<NewMapping>) returns (ok: bool)
      requires |stores| == |loads|
      modifies this
      ensures CreateObjects(old(State()), src, l, stores, loads) == if ok then Some(State()) else None
    {
      ActivateConcat(State(), stores, loads);
      ok := ActivateMappedDims(stores);
      if !ok { return; }
      ok := ActivateMappedDims(loads);
      if !ok { return; }
      ok := SetLazyTmp(l.mem, Zip(stores, loads));
      if !ok { return; }
      if !insts.Active(src) { return false; }
      ok := AddInst(l.store, StoreInst(src, l, stores));
      if !ok { return; }
      ok := AddInst(l.load, LoadInst(l, loads));
    }

    /** Lowers an operand, or refuses to, or panics. */
    method LowerOperand(i: nat, k: nat) returns (done: bool, refused: bool)
      modifies this
      ensures LowerDimMap(old(State()), i, k) == if done then Done(State()) else if refused then Refused else Panic
    {
      if !insts.Active(i) || k >= |insts.filled[i].operands| {
        return false, false;
      }
      match insts.filled[i].operands[k] {
        case Value(src, dimMap, Global(l)) =>
          if !Known(l, dimMap) {
            return false, false;
          }
          var stores, loads := StoreMappings(l, dimMap), LoadMappings(l, dimMap);
          var ok := CreateLowered(src, l, stores, loads);
          if !ok || !insts.Active(i) || k >= |insts.filled[i].operands| {
            return false, false;
          }
          var inst := insts.filled[i];
          insts := insts.Set(i, inst.(operands := inst.operands[k := Value(l.load, NewToOld(loads), Local)]));
          return true, false;
        case Value(_, _, _) => return false, true;
        case Reduce(_, _, _) => return false, true;
        case _ => return false, false;
      }
    }

    /** Removes the pair from the maps of every instruction. */
    method MergeInsts(l: nat, r: nat)
      modifies this`insts
      ensures insts == old(insts).(filled := map i | i in old(insts).filled :: MergeInst(old(insts).filled[i], l, r))
    {
      var todo := insts.filled.Keys;
      while todo != {}
        invariant todo <= old(insts).filled.Keys
        invariant insts == old(insts).(filled := map i | i in old(insts).filled ::
                    if i in todo then old(insts).filled[i] else MergeInst(old(insts).filled[i], l, r))
        decreases todo
      {
        var i :| i in todo;
        insts := insts.Set(i, MergeInst(insts.filled[i], l, r));
        todo := todo - {i};
      }
    }

    /** Removes the pair from the blocks and lists those that became ready. */
    method MergeAllBlocks(l: nat, r: nat) returns (ready: seq<nat>)
      modifies this`blocks
      ensures blocks == MergeBlocks(old(blocks), l, r) && ListsReady(ready, old(blocks), blocks)
    {
      var todo := blocks.filled.Keys;
      ready := [];
      MergedAll(blocks, l, r);
      while todo != {}
        invariant todo <= old(blocks).filled.Keys
        invariant blocks == PartlyMerged(old(blocks), todo, l, r)
        invariant ReadyAmong(ready, old(blocks), blocks, old(blocks).filled.Keys - todo)
        decreases todo
      {
        var m :| m in todo;
        assert old(blocks).filled.Keys - (todo - {m}) == old(blocks).filled.Keys - todo + {m};
        var block := blocks.filled[m];
        var maybe := Without(block.maybe, l, r);
        MergedStep(old(blocks), todo, m, l, r);
        ReadyStep(ready, old(blocks), blocks, old(blocks).filled.Keys - todo, m, block.(maybe := maybe));
        blocks := blocks.Set(m, block.(maybe := maybe));
        todo := todo - {m};
        if block.maybe != [] && maybe == [] {
          ready := ready + [m];
        }
      }
    }

    /** Removes the pair from the bases of induction variables. */
    method MergeIndVars(l: nat, r: nat)
      modifies this`indVars
      ensures indVars == MergeVars(old(indVars), l, r)
    {
      for v := 0 to |indVars|
        invariant |indVars| == |old(indVars)|
        invariant forall k :: 0 <= k < v ==> indVars[k] == MergeVars(old(indVars), l, r)[k]
        invariant forall k :: v <= k < |indVars| ==> indVars[k] == old(indVars)[k]
      {
        indVars := indVars[v := indVars[v].(base := MergeOperand(indVars[v].base, l, r))];
      }
    }

    /** Two dimensions are one: values and layouts need not map them any more. */
    method Merge(l: nat, r: nat)
      modifies this
      ensures Merged(old(State()), l, r, State())
    {
      MergeInsts(l, r);
      MergeIndVars(l, r);
      var ready := MergeAllBlocks(l, r);
      toLower := toLower + ready;
    }

    /** Two dimensions differ: the layouts that map them must do so in memory. */
    method DimNotMerged(l: nat, r: nat)
      requires forall m :: m in layouts ==> blocks.Active(m)
      modifies this
      ensures NotMerged(old(State()), l, r, State())
    {
      var todo, ready := layouts, [];
      while todo != {}
        invariant todo <= layouts == old(layouts) && toLower == old(toLower)
        invariant insts == old(insts) && dims == old(dims) && mappings == old(mappings) && indVars == old(indVars)
        invariant blocks == old(blocks).(filled := map m | m in old(blocks).filled ::
                    if m in todo then old(blocks).filled[m] else SplitBlocks(old(blocks), layouts, l, r).filled[m])
        invariant ReadyAmong(ready, old(blocks), blocks, layouts - todo)
        decreases todo
      {
        var m :| m in todo;
        assert layouts - (todo - {m}) == layouts - todo + {m};
        var block := blocks.filled[m];
        var only, maybe := Only(block.maybe, l, r), Without(block.maybe, l, r);
        OnlyOrAll(block.maybe, l, r);
        ReadyStep(ready, old(blocks), blocks, layouts - todo, m, block.(maybe := maybe, mapped := block.mapped + only));
        blocks := blocks.Set(m, block.(maybe := maybe, mapped := block.mapped + only));
        todo := todo - {m};
        if only != [] && maybe == [] {
          ready := ready + [m];
        }
      }
      toLower := toLower + ready;
      assert ListsReady(ready, old(blocks), blocks);
    }

    /** Makes the induction variable of the accesses to a block along some dimensions, or panics. */
    method GenIndexVar(mem: nat, dimIds: seq<nat>) returns (ok: bool)
      modifies this
      ensures GenIndex(old(State()), mem, dimIds) == if ok then Some(State()) else None
    {
      var increments := [];
      var k := |dimIds|;
      while k > 0
        invariant 0 <= k <= |dimIds| && increments == Increments(mem, dimIds[k..])
        invariant forall d :: d in dimIds[k..] ==> dims.Active(d)
      {
        k := k - 1;
        if !dims.Active(dimIds[k]) {
          assert dimIds[k] in dimIds;
          return false;
        }
        assert dimIds[k..][1..] == dimIds[k + 1..];
        increments := increments + [Increment(dimIds[k], Elements(mem, dimIds[k + 1..]))];
      }
      assert dimIds[0..] == dimIds;
      var v := NewIndVar(increments, Address(mem));
      if v.None? {
        return false;
      }
      indVars := indVars + [v.value];
      ok := true;
    }

    /** Lowers the layout of a temporary block, or panics. */
    method LowerBlockLayout(id: nat, storeDims: seq<nat>, loadDims: seq<nat>) returns (ok: bool)
      modifies this
      ensures LowerLayout(old(State()), id, storeDims, loadDims) == if ok then Done(State()) else Panic
    {
      if id !in toLower {
        return false;
      }
      toLower := SwapRemove(toLower, id);
      if id !in layouts || !blocks.Active(id) || blocks.filled[id].maybe != [] {
        return false;
      }
      layouts := layouts - {id};
      var store := |indVars|;
      ok := GenIndexVar(id, storeDims);
      if !ok { return; }
      var load := |indVars|;
      ok := GenIndexVar(id, loadDims);
      if !ok { return; }
      ok := LowerUses(id, blocks.filled[id].uses, store, load);
    }

    /** Turns the accesses to a block into conventional ones, or panics. */
    method LowerUses(id: nat, uses: seq<nat>, store: nat, load: nat) returns (ok: bool)
      modifies this`insts
      ensures LowerAccesses(old(insts), uses, id, store, load) == if ok then Some(insts) else None
    {
      for k := 0 to |uses|
        invariant LowerAccesses(old(insts), uses[..k], id, store, load) == Some(insts)
      {
        var i := uses[k];
        assert uses[..k + 1][..k] == uses[..k];
        if !insts.Active(i) || insts.filled[i].operator.Plain? || insts.filled[i].operator.mem != id {
          AccessesFail(old(insts), uses, id, store, load, k + 1);
          return false;
        }
        insts := insts.Set(i, LowerAccess(insts.filled[i], store, load));
      }
      assert uses[..|uses|] == uses;
      ok := true;
    }
  }

  lemma {:induction false} AccessesFail(insts: Slots<Inst<Lowering>>, uses: seq<nat>, id: nat, st: nat, ld: nat, k: nat)
    requires k <= |uses| && LowerAccesses(insts, uses[..k], id, st, ld) == None
    ensures LowerAccesses(insts, uses, id, st, ld) == None
    decreases |uses|
  {
    if k < |uses| {
      assert uses[..|uses| - 1][..k] == uses[..k];
      AccessesFail(insts, uses[..|uses| - 1], id, st, ld, k);
    } else {
      assert uses[..k] == uses;
    }
  }

  /** The blocks of `done` that have just become ready. */
  ghost predicate ReadyAmong(ready: seq<nat>, before: Slots<Block>, after: Slots<Block>, done: set<nat>) {
    && (forall i, j :: 0 <= i < j < |ready| ==> ready[i] != ready[j])
    && (forall id :: id in ready <==>
          id in done && id in before.filled && id in after.filled && before.filled[id].maybe != [] && after.filled[id].maybe == [])
  }

  /** The blocks while `todo` remain to be merged. */
  ghost function PartlyMerged(before: Slots<Block>, todo: set<nat>, l: nat, r: nat): Slots<Block> {
    before.(filled := map m | m in before.filled ::
      if m in todo then before.filled[m] else MergeBlocks(before, l, r).filled[m])
  }

  lemma MergedAll(before: Slots<Block>, l: nat, r: nat)
    ensures PartlyMerged(before, before.filled.Keys, l, r) == before
    ensures PartlyMerged(before, {}, l, r) == MergeBlocks(before, l, r)
  {
  }

  lemma MergedStep(before: Slots<Block>, todo: set<nat>, m: nat, l: nat, r: nat)
    requires m in todo && todo <= before.filled.Keys
    ensures
      var block, mid := before.filled[m], PartlyMerged(before, todo, l, r);
      && mid.filled[m] == block
      && PartlyMerged(before, todo - {m}, l, r) == mid.Set(m, block.(maybe := Without(block.maybe, l, r)))
  {
  }

  lemma ReadyStep(ready: seq<nat>, before: Slots<Block>, mid: Slots<Block>, done: set<nat>, m: nat, block: Block)
    requires ReadyAmong(ready, before, mid, done) && m in before.filled && m !in done
    ensures
      var more := if before.filled[m].maybe != [] && block.maybe == [] then ready + [m] else ready;
      ReadyAmong(more, before, mid.Set(m, block), done + {m})
  {
  }

  lemma {:induction false} OnlyOrAll(dimMap: seq<Pair>, l: nat, r: nat)
    ensures Only(dimMap, l, r) == [] ==> Without(dimMap, l, r) == dimMap
    ensures dimMap == [] ==> Only(dimMap, l, r) == []
  {
    if dimMap != [] {
      OnlyOrAll(dimMap[1..], l, r);
    }
  }
}
