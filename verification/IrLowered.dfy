/** Lowering an operand keeps the invariant. */
module IrLowered {
  import opened Wrappers
  import opened SparseVecs
  import opened IrBodies
  import opened IrInvariants
  import opened IrLowering

  // ----- More active objects -----

  /** Whatever is active in `b` is active in `b'`, with the same mappings. */
  ghost predicate Extends(b: Body, b': Body) {
    && b.insts.filled.Keys <= b'.insts.filled.Keys && b.blocks.filled.Keys <= b'.blocks.filled.Keys
    && b.dims.filled.Keys <= b'.dims.filled.Keys && |b.indVars| <= |b'.indVars|
    && (forall d :: d in b.dims.filled ==> b.dims.filled[d].mappings <= b'.dims.filled[d].mappings)
    && (forall m :: m in b.mappings.filled ==> m in b'.mappings.filled && b'.mappings.filled[m] == b.mappings.filled[m])
  }

  lemma FoundExtends(b: Body, b': Body, p: Pair)
    requires Extends(b, b') && FoundMapping(b, p)
    ensures FoundMapping(b', p)
  {
    var m :| m in b.dims.filled[p.0].mappings && b.mappings.Active(m) && (b.mappings.filled[m].0 == p.1 || b.mappings.filled[m].1 == p.1);
    assert m in b'.dims.filled[p.0].mappings && b'.mappings.Active(m);
  }

  lemma OperandExtends(b: Body, b': Body, o: Operand<Lowering>)
    requires Extends(b, b') && OperandActive(b, o)
    ensures OperandActive(b', o)
  {
    forall p | p in DimMapOf(o) ensures FoundMapping(b', p) {
      FoundExtends(b, b', p);
    }
  }

  lemma InstExtends(b: Body, b': Body, inst: Inst<Lowering>)
    requires Extends(b, b') && InstActive(b, inst)
    ensures InstActive(b', inst)
  {
    forall k | 0 <= k < |inst.operands| ensures OperandActive(b', inst.operands[k]) {
      OperandExtends(b, b', inst.operands[k]);
    }
  }

  lemma BlockExtends(b: Body, b': Body, block: Block)
    requires Extends(b, b') && BlockActive(b, block)
    ensures BlockActive(b', block)
  {
  }

  lemma VarExtends(b: Body, b': Body, v: IndVar<Lowering>)
    requires Extends(b, b') && VarActive(b, v)
    ensures VarActive(b', v)
  {
    OperandExtends(b, b', v.base);
    forall k | 0 <= k < |v.increments|
      ensures b'.dims.Active(v.increments[k].dim) && ExtentActive(b', v.increments[k].step)
    {
      assert ExtentActive(b, v.increments[k].step);
    }
  }

  // ----- The operand to lower -----

  ghost predicate CanLower(b: Body, i: nat, k: nat) {
    && Inv(b) && Pending(b, i, k)
    && b.insts.filled[i].operands[k].dimMap != [] && OneToOne(b.insts.filled[i].operands[k].dimMap)
  }

  lemma StoresDistinct(l: Lowering, dimMap: seq<Pair>)
    requires Injective(l) && OneToOne(dimMap)
    requires forall p :: p in dimMap ==> p.0 in l.storeMap && p.1 in l.loadMap
    ensures
      var ms := StoreMappings(l, dimMap) + LoadMappings(l, dimMap);
      forall j, k :: 0 <= j < k < |ms| ==> ms[j].dim != ms[k].dim && ms[j].id != ms[k].id
  {
    var n, ms := |dimMap|, StoreMappings(l, dimMap) + LoadMappings(l, dimMap);
    forall j, k | 0 <= j < k < |ms| ensures ms[j].dim != ms[k].dim && ms[j].id != ms[k].id {
      var a, c := dimMap[if j < n then j else j - n], dimMap[if k < n then k else k - n];
      assert a in dimMap && c in dimMap;
      if j < n <= k {
        assert ms[j] == NewMapping(l.storeMap[a.0].1, a.0, l.storeMap[a.0].0);
      }
    }
  }

  lemma NewAreReserved(l: Lowering, dimMap: seq<Pair>)
    requires forall p :: p in dimMap ==> p.0 in l.storeMap && p.1 in l.loadMap
    ensures
      var ms := StoreMappings(l, dimMap) + LoadMappings(l, dimMap);
      && NewDims(ms) <= Dims(l) && NewIds(ms) <= Mappings(l)
      && forall k :: 0 <= k < |ms| ==> ms[k].dim in Dims(l) && ms[k].id in Mappings(l)
  {
    var n, ms := |dimMap|, StoreMappings(l, dimMap) + LoadMappings(l, dimMap);
    forall k | 0 <= k < |ms| ensures ms[k].dim in Dims(l) && ms[k].id in Mappings(l) {
      var p := dimMap[if k < n then k else k - n];
      assert p in dimMap;
      if k < n {
        assert l.storeMap[p.0].0 in (set s | s in l.storeMap :: l.storeMap[s].0);
        assert l.storeMap[p.0].1 in (set s | s in l.storeMap :: l.storeMap[s].1);
      } else {
        assert l.loadMap[p.1].0 in (set s | s in l.loadMap :: l.loadMap[s].0);
        assert l.loadMap[p.1].1 in (set s | s in l.loadMap :: l.loadMap[s].1);
      }
    }
  }

  lemma FreshToLower(b: Body, i: nat, k: nat)
    requires CanLower(b, i, k)
    ensures
      var l, dimMap := LoweringOf(b, i, k), b.insts.filled[i].operands[k].dimMap;
      && (forall p :: p in dimMap ==> p.0 in l.storeMap && p.1 in l.loadMap)
      && Fresh(b, StoreMappings(l, dimMap) + LoadMappings(l, dimMap))
      && b.blocks.Hole(l.mem) && b.insts.Hole(l.store) && b.insts.Hole(l.load) && l.store != l.load
      && b.insts.Active(b.insts.filled[i].operands[k].src)
  {
    var l, dimMap := LoweringOf(b, i, k), b.insts.filled[i].operands[k].dimMap;
    assert PendingOk(b, i, k) && OperandActive(b, b.insts.filled[i].operands[k]);
    StoresDistinct(l, dimMap);
    NewAreReserved(l, dimMap);
    var n, ms := |dimMap|, StoreMappings(l, dimMap) + LoadMappings(l, dimMap);
    forall j | 0 <= j < |ms| ensures b.dims.Active(ms[j].old_) && b.dims.Hole(ms[j].dim) && b.mappings.Hole(ms[j].id) {
      assert dimMap[if j < n then j else j - n] in dimMap;
      assert ms[j].dim in Dims(l) && ms[j].id in Mappings(l);
    }
  }

  /** The body before and after operand `k` of instruction `i` was lowered. */
  ghost predicate Lowered(b: Body, i: nat, k: nat, stores: seq<NewMapping>, loads: seq<NewMapping>, b1: Body, b': Body) {
    && CanLower(b, i, k) && |stores| == |loads| > 0
    && NewDims(stores + loads) <= Dims(LoweringOf(b, i, k)) && NewIds(stores + loads) <= Mappings(LoweringOf(b, i, k))
    && Created(b, b.insts.filled[i].operands[k].src, LoweringOf(b, i, k), stores, loads, b1)
    && b1.insts.Active(i) && k < |b1.insts.filled[i].operands|
    && b' == SetOperand(b1, i, k, Value(LoweringOf(b, i, k).load, NewToOld(loads), Local))
  }

  lemma StillThere(b: Body, i: nat, src: nat, l: Lowering, stores: seq<NewMapping>, loads: seq<NewMapping>, b1: Body)
    requires |stores| == |loads| && Created(b, src, l, stores, loads, b1)
    requires b.insts.Active(i) && b.insts.Hole(l.store) && b.insts.Hole(l.load)
    ensures b1.insts.Active(i) && b1.insts.filled[i] == b.insts.filled[i]
  {
  }

  /** A reserved operand can always be lowered: no slot is filled twice and nothing refers to a hole. */
  lemma LowerSucceeds(b: Body, i: nat, k: nat) returns (stores: seq<NewMapping>, loads: seq<NewMapping>, b1: Body)
    requires CanLower(b, i, k)
    ensures LowerDimMap(b, i, k).Done? && Lowered(b, i, k, stores, loads, b1, LowerDimMap(b, i, k).body)
  {
    FreshToLower(b, i, k);
    var o, l := b.insts.filled[i].operands[k], LoweringOf(b, i, k);
    assert Known(l, o.dimMap);
    stores, loads := StoreMappings(l, o.dimMap), LoadMappings(l, o.dimMap);
    CreateOk(b, o.src, l, stores, loads);
    b1 := CreateObjects(b, o.src, l, stores, loads).value;
    NewAreReserved(l, o.dimMap);
    StillThere(b, i, o.src, l, stores, loads, b1);
    assert LowerDimMap(b, i, k) == LowerValue(b, i, k, o.src, o.dimMap, l);
  }

  // ----- References stay active -----

  lemma LoweredFacts(b: Body, i: nat, k: nat, stores: seq<NewMapping>, loads: seq<NewMapping>, b1: Body, b': Body)
    requires Lowered(b, i, k, stores, loads, b1, b')
    ensures
      var l := LoweringOf(b, i, k);
      && Reserved(b, l) && Injective(l) && b1.insts.filled[i] == b.insts.filled[i]
      && i != l.store && i != l.load && l.store != l.load
      && b.blocks.Hole(l.mem) && b.insts.Hole(l.store) && b.insts.Hole(l.load)
  {
    assert PendingOk(b, i, k);
    var l := LoweringOf(b, i, k);
    assert l.store in Insts(l) && l.load in Insts(l);
    StillThere(b, i, b.insts.filled[i].operands[k].src, l, stores, loads, b1);
  }

  /** The instructions once the operand was lowered. */
  lemma LoweredInsts(b: Body, i: nat, k: nat, stores: seq<NewMapping>, loads: seq<NewMapping>, b1: Body, b': Body)
    requires Lowered(b, i, k, stores, loads, b1, b')
    ensures
      var l, inst := LoweringOf(b, i, k), b.insts.filled[i];
      b'.insts == b.insts.Set(l.store, StoreInst(inst.operands[k].src, l, stores)).Set(l.load, LoadInst(l, loads))
                         .Set(i, inst.(operands := inst.operands[k := Value(l.load, NewToOld(loads), Local)]))
  {
    LoweredFacts(b, i, k, stores, loads, b1, b');
  }

  lemma LoweredExtends(b: Body, i: nat, k: nat, stores: seq<NewMapping>, loads: seq<NewMapping>, b1: Body, b': Body)
    requires Lowered(b, i, k, stores, loads, b1, b')
    ensures Extends(b, b')
  {
    LoweredInsts(b, i, k, stores, loads, b1, b');
  }

  /** The mappings made for the operand, seen from the body afterwards. */
  lemma LoweredMade(b: Body, i: nat, k: nat, stores: seq<NewMapping>, loads: seq<NewMapping>, b1: Body, b': Body)
    requires Lowered(b, i, k, stores, loads, b1, b')
    ensures forall j :: 0 <= j < |stores| ==> MappingMade(b', stores[j]) && FoundMapping(b', (stores[j].old_, stores[j].dim))
    ensures forall j :: 0 <= j < |loads| ==> MappingMade(b', loads[j]) && FoundMapping(b', (loads[j].dim, loads[j].old_))
    ensures forall m :: m in NewIds(stores + loads) ==>
              (m in b'.mappings.filled && b'.mappings.filled[m].0 in b'.dims.filled && b'.mappings.filled[m].1 in b'.dims.filled)
  {
    var ms := stores + loads;
    MadeElsewhere(b1, ms, b');
    forall j | 0 <= j < |stores|
      ensures MappingMade(b', stores[j]) && FoundMapping(b', (stores[j].old_, stores[j].dim))
    {
      assert ms[j] == stores[j];
      MadeFound(b', stores[j]);
    }
    forall j | 0 <= j < |loads|
      ensures MappingMade(b', loads[j]) && FoundMapping(b', (loads[j].dim, loads[j].old_))
    {
      assert ms[|stores| + j] == loads[j];
      MadeFound(b', loads[j]);
    }
    forall m | m in NewIds(ms)
      ensures m in b'.mappings.filled && b'.mappings.filled[m].0 in b'.dims.filled && b'.mappings.filled[m].1 in b'.dims.filled
    {
      var j :| 0 <= j < |ms| && ms[j].id == m;
      assert MappingMade(b', ms[j]);
    }
  }

  lemma StoreActive(b: Body, src: nat, l: Lowering, stores: seq<NewMapping>)
    requires b.insts.Active(src) && b.blocks.Active(l.mem)
    requires forall j :: 0 <= j < |stores| ==> MappingMade(b, stores[j]) && FoundMapping(b, (stores[j].old_, stores[j].dim))
    ensures InstActive(b, StoreInst(src, l, stores))
  {
    var pairs := OldToNew(stores);
    forall p | p in pairs ensures b.dims.Active(p.0) && b.dims.Active(p.1) && FoundMapping(b, p) {
      var j :| 0 <= j < |pairs| && pairs[j] == p;
      assert MappingMade(b, stores[j]);
    }
    forall d | d in NewDims(stores) ensures b.dims.Active(d) {
      var j :| 0 <= j < |stores| && stores[j].dim == d;
      assert MappingMade(b, stores[j]);
    }
    assert OperandActive(b, Value(src, pairs, Local));
  }

  lemma LoadActive(b: Body, l: Lowering, loads: seq<NewMapping>)
    requires b.blocks.Active(l.mem) && b.insts.Active(l.load)
    requires forall j :: 0 <= j < |loads| ==> MappingMade(b, loads[j]) && FoundMapping(b, (loads[j].dim, loads[j].old_))
    ensures InstActive(b, LoadInst(l, loads)) && OperandActive(b, Value(l.load, NewToOld(loads), Local))
  {
    var pairs := NewToOld(loads);
    forall p | p in pairs ensures b.dims.Active(p.0) && b.dims.Active(p.1) && FoundMapping(b, p) {
      var j :| 0 <= j < |pairs| && pairs[j] == p;
      assert MappingMade(b, loads[j]);
    }
    forall d | d in NewDims(loads) ensures b.dims.Active(d) {
      var j :| 0 <= j < |loads| && loads[j].dim == d;
      assert MappingMade(b, loads[j]);
    }
  }

  lemma ZipActive(b: Body, stores: seq<NewMapping>, loads: seq<NewMapping>)
    requires |stores| == |loads|
    requires forall j :: 0 <= j < |stores| ==> MappingMade(b, stores[j]) && MappingMade(b, loads[j])
    ensures PairsActive(b, Zip(stores, loads))
  {
    var pairs := Zip(stores, loads);
    forall p | p in pairs ensures b.dims.Active(p.0) && b.dims.Active(p.1) {
      var j :| 0 <= j < |pairs| && pairs[j] == p;
      assert MappingMade(b, stores[j]) && MappingMade(b, loads[j]);
    }
  }

  lemma InstsStayActive(b: Body, i: nat, k: nat, stores: seq<NewMapping>, loads: seq<NewMapping>, b1: Body, b': Body)
    requires Lowered(b, i, k, stores, loads, b1, b')
    ensures forall j :: b'.insts.Active(j) ==> InstActive(b', b'.insts.filled[j])
  {
    var l, inst := LoweringOf(b, i, k), b.insts.filled[i];
    LoweredInsts(b, i, k, stores, loads, b1, b');
    LoweredExtends(b, i, k, stores, loads, b1, b');
    LoweredMade(b, i, k, stores, loads, b1, b');
    LoweredFacts(b, i, k, stores, loads, b1, b');
    assert OperandActive(b, inst.operands[k]);
    StoreActive(b', inst.operands[k].src, l, stores);
    LoadActive(b', l, loads);
    InstExtends(b, b', inst);
    forall j | b'.insts.Active(j) ensures InstActive(b', b'.insts.filled[j]) {
      if j != i && j != l.store && j != l.load {
        InstExtends(b, b', b.insts.filled[j]);
      }
    }
  }

  lemma BlocksStayActive(b: Body, i: nat, k: nat, stores: seq<NewMapping>, loads: seq<NewMapping>, b1: Body, b': Body)
    requires Lowered(b, i, k, stores, loads, b1, b')
    ensures forall m :: b'.blocks.Active(m) ==> BlockActive(b', b'.blocks.filled[m])
  {
    var l := LoweringOf(b, i, k);
    LoweredInsts(b, i, k, stores, loads, b1, b');
    LoweredExtends(b, i, k, stores, loads, b1, b');
    LoweredMade(b, i, k, stores, loads, b1, b');
    ZipActive(b', stores, loads);
    forall m | b'.blocks.Active(m) ensures BlockActive(b', b'.blocks.filled[m]) {
      if m != l.mem {
        BlockExtends(b, b', b.blocks.filled[m]);
      }
    }
  }

  lemma VarsStayActive(b: Body, i: nat, k: nat, stores: seq<NewMapping>, loads: seq<NewMapping>, b1: Body, b': Body)
    requires Lowered(b, i, k, stores, loads, b1, b')
    ensures forall v :: 0 <= v < |b'.indVars| ==> VarActive(b', b'.indVars[v])
  {
    LoweredExtends(b, i, k, stores, loads, b1, b');
    forall v | 0 <= v < |b'.indVars| ensures VarActive(b', b'.indVars[v]) {
      VarExtends(b, b', b.indVars[v]);
    }
  }

  lemma LowerKeepsActive(b: Body, i: nat, k: nat, stores: seq<NewMapping>, loads: seq<NewMapping>, b1: Body, b': Body)
    requires Lowered(b, i, k, stores, loads, b1, b')
    ensures AllActive(b')
  {
    InstsStayActive(b, i, k, stores, loads, b1, b');
    BlocksStayActive(b, i, k, stores, loads, b1, b');
    LoweredMade(b, i, k, stores, loads, b1, b');
    VarsStayActive(b, i, k, stores, loads, b1, b');
    forall m | b'.mappings.Active(m)
      ensures b'.dims.Active(b'.mappings.filled[m].0) && b'.dims.Active(b'.mappings.filled[m].1)
    {
      if m !in NewIds(stores + loads) {
        assert b.mappings.Active(m);
      }
    }
    forall d, m | b'.dims.Active(d) && m in b'.dims.filled[d].mappings ensures b'.mappings.Active(m) {
      if m !in NewIds(stores + loads) {
        assert b.dims.Active(d) && m in b.dims.filled[d].mappings;
      }
    }
  }

  // ----- Reserved identifiers stay apart -----

  /** What may still be lowered could be lowered before, and is another operand. */
  lemma StillPending(b: Body, i: nat, k: nat, stores: seq<NewMapping>, loads: seq<NewMapping>, b1: Body, b': Body, j: nat, n: nat)
    requires Lowered(b, i, k, stores, loads, b1, b') && Pending(b', j, n)
    ensures Pending(b, j, n) && (j != i || n != k) && b'.insts.filled[j].operands[n] == b.insts.filled[j].operands[n]
  {
    LoweredInsts(b, i, k, stores, loads, b1, b');
    LoweredFacts(b, i, k, stores, loads, b1, b');
  }

  lemma StillReserved(b: Body, i: nat, k: nat, stores: seq<NewMapping>, loads: seq<NewMapping>, b1: Body, b': Body, l': Lowering)
    requires Lowered(b, i, k, stores, loads, b1, b') && Reserved(b, l') && Apart(LoweringOf(b, i, k), l')
    ensures Reserved(b', l')
  {
    var l := LoweringOf(b, i, k);
    LoweredInsts(b, i, k, stores, loads, b1, b');
    LoweredFacts(b, i, k, stores, loads, b1, b');
    assert l.store in Insts(l) && l.load in Insts(l);
    forall j | j in Insts(l') ensures b'.insts.Hole(j) {
      assert b.insts.Hole(j) && j != i;
    }
  }

  lemma LowerKeepsReserved(b: Body, i: nat, k: nat, stores: seq<NewMapping>, loads: seq<NewMapping>, b1: Body, b': Body)
    requires Lowered(b, i, k, stores, loads, b1, b')
    ensures AllReserved(b')
  {
    forall j, n | Pending(b', j, n) ensures PendingOk(b', j, n) {
      StillPending(b, i, k, stores, loads, b1, b', j, n);
      assert PendingOk(b, j, n);
      StillReserved(b, i, k, stores, loads, b1, b', LoweringOf(b, j, n));
    }
    forall j, n, j', n' | Pending(b', j, n) && Pending(b', j', n') && (j != j' || n != n')
      ensures Apart(LoweringOf(b', j, n), LoweringOf(b', j', n'))
    {
      StillPending(b, i, k, stores, loads, b1, b', j, n);
      StillPending(b, i, k, stores, loads, b1, b', j', n');
    }
  }

  // ----- Layouts -----

  lemma LowerKeepsLayouts(b: Body, i: nat, k: nat, stores: seq<NewMapping>, loads: seq<NewMapping>, b1: Body, b': Body)
    requires Lowered(b, i, k, stores, loads, b1, b')
    ensures LayoutsOk(b')
  {
    var l := LoweringOf(b, i, k);
    LoweredInsts(b, i, k, stores, loads, b1, b');
    LoweredFacts(b, i, k, stores, loads, b1, b');
    assert |Zip(stores, loads)| > 0;
    forall id | id in b'.layouts ensures b'.blocks.Active(id) && TemporaryOk(b', id) {
      if id != l.mem {
        assert TemporaryOk(b, id);
      }
    }
  }

  /** Lowering keeps the invariant. */
  lemma LowerKeepsInv(b: Body, i: nat, k: nat)
    requires CanLower(b, i, k)
    ensures LowerDimMap(b, i, k).Done? && Inv(LowerDimMap(b, i, k).body)
  {
    var stores, loads, b1 := LowerSucceeds(b, i, k);
    var b' := LowerDimMap(b, i, k).body;
    LowerKeepsActive(b, i, k, stores, loads, b1, b');
    LowerKeepsReserved(b, i, k, stores, loads, b1, b');
    LowerKeepsLayouts(b, i, k, stores, loads, b1, b');
  }
}
