/** Lowering an operand activates reserved identifiers, and only its own. */
module IrLowering {
  import opened Wrappers
  import opened SparseVecs
  import opened IrBodies
  import opened IrInvariants

  function NewIds(ms: seq<NewMapping>): set<nat> {
    set k | 0 <= k < |ms| :: ms[k].id
  }

  // ----- New dimensions and mappings -----

  /** The mappings can be created: old dimensions are active, the identifiers are distinct holes. */
  ghost predicate Fresh(b: Body, ms: seq<NewMapping>) {
    && (forall k :: 0 <= k < |ms| ==> b.dims.Active(ms[k].old_) && b.dims.Hole(ms[k].dim) && b.mappings.Hole(ms[k].id))
    && (forall j, k :: 0 <= j < k < |ms| ==> ms[j].dim != ms[k].dim && ms[j].id != ms[k].id)
  }

  ghost predicate MappingMade(b: Body, m: NewMapping) {
    && b.mappings.Active(m.id) && b.mappings.filled[m.id] == (m.old_, m.dim)
    && b.dims.Active(m.old_) && m.id in b.dims.filled[m.old_].mappings
    && b.dims.Active(m.dim) && m.id in b.dims.filled[m.dim].mappings
  }

  /** More dimensions, and mappings of the old and of the new ones. */
  ghost predicate DimsGrown(dims: Slots<Dim>, dims': Slots<Dim>, more: set<nat>, ids: set<nat>) {
    && dims'.capacity == dims.capacity && dims'.filled.Keys == dims.filled.Keys + more
    && (forall d :: d in dims.filled ==> dims.filled[d].mappings <= dims'.filled[d].mappings)
    && (forall d :: d in dims'.filled ==>
          dims'.filled[d].mappings <= (if d in dims.filled then dims.filled[d].mappings else {}) + ids)
  }

  ghost predicate MappingsGrown(mappings: Slots<Pair>, mappings': Slots<Pair>, ids: set<nat>) {
    && mappings'.capacity == mappings.capacity && mappings'.filled.Keys == mappings.filled.Keys + ids
    && (forall m :: m in mappings.filled ==> mappings'.filled[m] == mappings.filled[m])
  }

  /** What is active, and what it refers to, once `ms` was created. */
  ghost predicate Activated(b: Body, ms: seq<NewMapping>, b': Body) {
    && b' == b.(dims := b'.dims, mappings := b'.mappings)
    && DimsGrown(b.dims, b'.dims, NewDims(ms), NewIds(ms)) && MappingsGrown(b.mappings, b'.mappings, NewIds(ms))
    && (forall k :: 0 <= k < |ms| ==> MappingMade(b', ms[k]))
  }

  lemma NewStep(ms: seq<NewMapping>)
    requires ms != []
    ensures
      var n := |ms| - 1;
      && NewDims(ms) == NewDims(ms[..n]) + {ms[n].dim}
      && NewIds(ms) == NewIds(ms[..n]) + {ms[n].id}
  {
    var n := |ms| - 1;
    forall k | 0 <= k < |ms| ensures ms[k].dim in NewDims(ms[..n]) + {ms[n].dim} && ms[k].id in NewIds(ms[..n]) + {ms[n].id} {
      if k < n {
        assert ms[..n][k] == ms[k];
      }
    }
    forall k | 0 <= k < n ensures ms[..n][k].dim in NewDims(ms) && ms[..n][k].id in NewIds(ms) {
      assert ms[..n][k] == ms[k];
    }
    assert ms[n].dim in NewDims(ms) && ms[n].id in NewIds(ms);
  }

  /** The effect of creating one mapping. */
  ghost predicate OneMade(b: Body, m: NewMapping, b': Body) {
    && b' == b.(dims := b'.dims, mappings := b'.mappings)
    && b'.dims.capacity == b.dims.capacity && b'.mappings == b.mappings.Set(m.id, (m.old_, m.dim))
    && b'.dims.filled.Keys == b.dims.filled.Keys + {m.dim}
    && (forall d :: d in b.dims.filled ==>
          b'.dims.filled[d].mappings == b.dims.filled[d].mappings + (if d == m.old_ then {m.id} else {}))
    && b'.dims.filled[m.dim].mappings == {m.id}
  }

  lemma MakeOne(b: Body, m: NewMapping)
    requires b.dims.Active(m.old_) && b.dims.Hole(m.dim) && b.mappings.Hole(m.id)
    ensures ActivateOne(b, m).Some? && OneMade(b, m, ActivateOne(b, m).value)
  {
  }

  lemma MadeKept(b: Body, m: NewMapping, b': Body, k: NewMapping)
    requires OneMade(b, m, b') && MappingMade(b, k) && m.id != k.id
    requires m.dim !in b.dims.filled
    ensures MappingMade(b', k)
  {
  }

  lemma DimsGrowOne(dims: Slots<Dim>, b1: Body, b2: Body, more: set<nat>, ids: set<nat>, m: NewMapping)
    requires DimsGrown(dims, b1.dims, more, ids) && OneMade(b1, m, b2) && m.dim !in b1.dims.filled
    ensures DimsGrown(dims, b2.dims, more + {m.dim}, ids + {m.id})
  {
  }

  lemma AllMade(ms: seq<NewMapping>, before: seq<NewMapping>, b1: Body, b2: Body)
    requires ms != [] && OneMade(b1, ms[|ms| - 1], b2) && ms[|ms| - 1].old_ in b1.dims.filled
    requires ms[|ms| - 1].dim !in b1.dims.filled && ms[|ms| - 1].id !in b1.mappings.filled
    requires before == ms[..|ms| - 1] && forall k :: 0 <= k < |before| ==> MappingMade(b1, before[k])
    ensures forall k :: 0 <= k < |ms| ==> MappingMade(b2, ms[k])
  {
    var n := |ms| - 1;
    forall k | 0 <= k < |ms| ensures MappingMade(b2, ms[k]) {
      if k < n {
        assert MappingMade(b1, before[k]);
        MadeKept(b1, ms[n], b2, ms[k]);
      }
    }
  }

  lemma ActivateStep(b: Body, ms: seq<NewMapping>, b1: Body, b2: Body)
    requires ms != [] && Activated(b, ms[..|ms| - 1], b1) && OneMade(b1, ms[|ms| - 1], b2)
    requires ms[|ms| - 1].old_ in b1.dims.filled && ms[|ms| - 1].dim !in b1.dims.filled && ms[|ms| - 1].id !in b1.mappings.filled
    ensures Activated(b, ms, b2)
  {
    var n := |ms| - 1;
    NewStep(ms);
    AllMade(ms, ms[..n], b1, b2);
    DimsGrowOne(b.dims, b1, b2, NewDims(ms[..n]), NewIds(ms[..n]), ms[n]);
  }

  lemma LastFresh(b: Body, ms: seq<NewMapping>, b1: Body)
    requires ms != [] && Fresh(b, ms) && Activated(b, ms[..|ms| - 1], b1)
    ensures var m := ms[|ms| - 1]; b1.dims.Active(m.old_) && b1.dims.Hole(m.dim) && b1.mappings.Hole(m.id)
  {
    var n := |ms| - 1;
    assert forall k :: 0 <= k < n ==> ms[..n][k] == ms[k];
  }

  lemma {:induction false} ActivateOk(b: Body, ms: seq<NewMapping>)
    requires Fresh(b, ms)
    ensures Activate(b, ms).Some? && Activated(b, ms, Activate(b, ms).value)
  {
    if ms != [] {
      var n := |ms| - 1;
      ActivateOk(b, ms[..n]);
      var b1 := Activate(b, ms[..n]).value;
      LastFresh(b, ms, b1);
      MakeOne(b1, ms[n]);
      ActivateStep(b, ms, b1, ActivateOne(b1, ms[n]).value);
    }
  }

  // ----- All the objects of a lowered operand -----

  ghost predicate Created(b: Body, src: nat, l: Lowering, stores: seq<NewMapping>, loads: seq<NewMapping>, b': Body)
    requires |stores| == |loads|
  {
    && DimsGrown(b.dims, b'.dims, NewDims(stores + loads), NewIds(stores + loads))
    && MappingsGrown(b.mappings, b'.mappings, NewIds(stores + loads))
    && (forall k :: 0 <= k < |stores + loads| ==> MappingMade(b', (stores + loads)[k]))
    && b'.insts == b.insts.Set(l.store, StoreInst(src, l, stores))
                          .Set(l.load, LoadInst(l, loads))
    && b'.blocks == b.blocks.Set(l.mem, Block([l.store, l.load], [], Zip(stores, loads)))
    && b'.layouts == b.layouts + {l.mem} && b'.toLower == b.toLower && b'.indVars == b.indVars
  }

  lemma MadeFound(b: Body, m: NewMapping)
    requires MappingMade(b, m)
    ensures FoundMapping(b, (m.old_, m.dim)) && FoundMapping(b, (m.dim, m.old_))
  {
  }

  lemma ActivatedPairs(b: Body, ms: seq<NewMapping>, b': Body)
    requires Activated(b, ms, b')
    ensures forall k :: 0 <= k < |ms| ==> FoundMapping(b', (ms[k].old_, ms[k].dim)) && FoundMapping(b', (ms[k].dim, ms[k].old_))
  {
    forall k | 0 <= k < |ms|
      ensures FoundMapping(b', (ms[k].old_, ms[k].dim)) && FoundMapping(b', (ms[k].dim, ms[k].old_))
    {
      assert MappingMade(b', ms[k]);
      MadeFound(b', ms[k]);
    }
  }

  lemma NewDimsConcat(a: seq<NewMapping>, b: seq<NewMapping>)
    ensures NewDims(a + b) == NewDims(a) + NewDims(b) && NewIds(a + b) == NewIds(a) + NewIds(b)
  {
    forall k | 0 <= k < |a| ensures a[k].dim in NewDims(a + b) && a[k].id in NewIds(a + b) {
      assert (a + b)[k] == a[k];
    }
    forall k | 0 <= k < |b| ensures b[k].dim in NewDims(a + b) && b[k].id in NewIds(a + b) {
      assert (a + b)[|a| + k] == b[k];
    }
  }

  /** The found mappings do not depend on instructions and blocks. */
  lemma FoundElsewhere(b: Body, b': Body)
    requires b.dims == b'.dims && b.mappings == b'.mappings
    ensures forall p :: FoundMapping(b, p) <==> FoundMapping(b', p)
  {
  }

  /** The accesses can be created: their mappings are found and their dimensions active. */
  ghost predicate Mapped(b: Body, stores: seq<NewMapping>, loads: seq<NewMapping>) {
    && (forall k :: 0 <= k < |stores| ==> FoundMapping(b, (stores[k].old_, stores[k].dim)))
    && (forall d :: d in NewDims(stores) + NewDims(loads) ==> b.dims.Active(d))
  }

  lemma ActivatedMapped(b: Body, stores: seq<NewMapping>, loads: seq<NewMapping>, b1: Body, b2: Body)
    requires Activated(b, stores + loads, b1) && b1.dims == b2.dims && b1.mappings == b2.mappings
    ensures Mapped(b2, stores, loads)
  {
    ActivatedPairs(b, stores + loads, b1);
    NewDimsConcat(stores, loads);
    forall k | 0 <= k < |stores| ensures FoundMapping(b2, (stores[k].old_, stores[k].dim)) {
      assert (stores + loads)[k] == stores[k];
      assert FoundMapping(b1, (stores[k].old_, stores[k].dim));
    }
  }

  lemma StoreCreated(b: Body, src: nat, l: Lowering, stores: seq<NewMapping>, loads: seq<NewMapping>)
    requires Mapped(b, stores, loads) && b.blocks.Active(l.mem) && b.insts.Hole(l.store)
    ensures CreateInst(b, l.store, StoreInst(src, l, stores)) ==
            Some(b.(blocks := b.blocks.Set(l.mem, b.blocks.filled[l.mem].(uses := b.blocks.filled[l.mem].uses + [l.store])),
                    insts := b.insts.Set(l.store, StoreInst(src, l, stores))))
  {
    var inst := StoreInst(src, l, stores);
    forall k, j | 0 <= k < |inst.operands| && 0 <= j < |DimMapOf(inst.operands[k])|
      ensures FoundMapping(b, DimMapOf(inst.operands[k])[j])
    {
    }
  }

  lemma LoadCreated(b: Body, l: Lowering, stores: seq<NewMapping>, loads: seq<NewMapping>)
    requires Mapped(b, stores, loads) && b.blocks.Active(l.mem) && b.insts.Hole(l.load)
    ensures CreateInst(b, l.load, LoadInst(l, loads)) ==
            Some(b.(blocks := b.blocks.Set(l.mem, b.blocks.filled[l.mem].(uses := b.blocks.filled[l.mem].uses + [l.load])),
                    insts := b.insts.Set(l.load, LoadInst(l, loads))))
  {
  }

  lemma BlockCreated(b: Body, mem: nat, pairs: seq<Pair>)
    requires pairs != [] && b.blocks.Hole(mem)
    ensures CreateBlock(b, mem, pairs) ==
            Some(b.(blocks := b.blocks.Set(mem, Block([], [], pairs)), layouts := b.layouts + {mem}))
  {
  }

  lemma AccessesCreated(b: Body, src: nat, l: Lowering, stores: seq<NewMapping>, loads: seq<NewMapping>)
    requires Mapped(b, stores, loads) && b.blocks.Active(l.mem) && b.blocks.filled[l.mem].uses == []
    requires b.insts.Hole(l.store) && b.insts.Hole(l.load) && l.store != l.load && b.insts.Active(src)
    ensures CreateAccesses(b, src, l, stores, loads) ==
            Some(b.(insts := b.insts.Set(l.store, StoreInst(src, l, stores)).Set(l.load, LoadInst(l, loads)),
                    blocks := b.blocks.Set(l.mem, b.blocks.filled[l.mem].(uses := [l.store, l.load]))))
  {
    StoreCreated(b, src, l, stores, loads);
    var block := b.blocks.filled[l.mem];
    var first, second := block.(uses := [l.store]), block.(uses := [l.store, l.load]);
    assert [] + [l.store] == [l.store] && [l.store] + [l.load] == [l.store, l.load];
    var b' := b.(blocks := b.blocks.Set(l.mem, first), insts := b.insts.Set(l.store, StoreInst(src, l, stores)));
    assert CreateInst(b, l.store, StoreInst(src, l, stores)) == Some(b');
    FoundElsewhere(b, b');
    LoadCreated(b', l, stores, loads);
    SetTwice(b.blocks, l.mem, first, second);
  }

  lemma MadeElsewhere(b: Body, ms: seq<NewMapping>, b': Body)
    requires b.dims == b'.dims && b.mappings == b'.mappings && forall k :: 0 <= k < |ms| ==> MappingMade(b, ms[k])
    ensures forall k :: 0 <= k < |ms| ==> MappingMade(b', ms[k])
  {
    forall k | 0 <= k < |ms| ensures MappingMade(b', ms[k]) {
      assert MappingMade(b, ms[k]);
    }
  }

  lemma CreateOk(b: Body, src: nat, l: Lowering, stores: seq<NewMapping>, loads: seq<NewMapping>)
    requires |stores| == |loads| > 0 && Fresh(b, stores + loads)
    requires b.blocks.Hole(l.mem) && b.insts.Hole(l.store) && b.insts.Hole(l.load) && l.store != l.load && b.insts.Active(src)
    ensures CreateObjects(b, src, l, stores, loads).Some?
    ensures Created(b, src, l, stores, loads, CreateObjects(b, src, l, stores, loads).value)
  {
    ActivateOk(b, stores + loads);
    var b1 := Activate(b, stores + loads).value;
    CreateRest(b, src, l, stores, loads, b1);
  }

  lemma CreateRest(b: Body, src: nat, l: Lowering, stores: seq<NewMapping>, loads: seq<NewMapping>, b1: Body)
    requires |stores| == |loads| > 0 && Activated(b, stores + loads, b1)
    requires b.blocks.Hole(l.mem) && b.insts.Hole(l.store) && b.insts.Hole(l.load) && l.store != l.load && b.insts.Active(src)
    ensures CreateBlock(b1, l.mem, Zip(stores, loads)).Some?
    ensures
      var made := CreateAccesses(CreateBlock(b1, l.mem, Zip(stores, loads)).value, src, l, stores, loads);
      made.Some? && Created(b, src, l, stores, loads, made.value)
  {
    BlockCreated(b1, l.mem, Zip(stores, loads));
    var b2 := CreateBlock(b1, l.mem, Zip(stores, loads)).value;
    ActivatedMapped(b, stores, loads, b1, b2);
    AccessesCreated(b2, src, l, stores, loads);
    var b4 := CreateAccesses(b2, src, l, stores, loads).value;
    MadeElsewhere(b1, stores + loads, b4);
    SetTwice(b.blocks, l.mem, Block([], [], Zip(stores, loads)), Block([l.store, l.load], [], Zip(stores, loads)));
  }
}
