/** Freezing a function reserves the identifiers of everything its lowering may create. */
module IrFreeze {
  import opened Wrappers
  import opened SparseVecs
  import opened IrBodies
  import opened IrInvariants

  /** The next identifier of each kind. */
  datatype Counts = Counts(mem: nat, inst: nat, dim: nat, mapping: nat)

  // ----- The identifiers of one operand -----

  function StoreIds(dimMap: seq<Pair>, c: Counts): map<nat, Pair> {
    if dimMap == [] then map[]
    else
      var n := |dimMap| - 1;
      StoreIds(dimMap[..n], c)[dimMap[n].0 := (c.dim + 2 * n, c.mapping + 2 * n)]
  }

  function LoadIds(dimMap: seq<Pair>, c: Counts): map<nat, Pair> {
    if dimMap == [] then map[]
    else
      var n := |dimMap| - 1;
      LoadIds(dimMap[..n], c)[dimMap[n].1 := (c.dim + 2 * n + 1, c.mapping + 2 * n + 1)]
  }

  function Reserve(dimMap: seq<Pair>, c: Counts): Lowering {
    Lowering(c.mem, c.inst, c.inst + 1, StoreIds(dimMap, c), LoadIds(dimMap, c))
  }

  function AfterReserve(dimMap: seq<Pair>, c: Counts): Counts {
    Counts(c.mem + 1, c.inst + 2, c.dim + 2 * |dimMap|, c.mapping + 2 * |dimMap|)
  }

  function FreezeOperand(o: Operand<()>, c: Counts): (Operand<Lowering>, Counts) {
    match o
    case Value(src, dimMap, Global(_)) => (Value(src, dimMap, Global(Reserve(dimMap, c))), AfterReserve(dimMap, c))
    case Value(src, dimMap, Local) => (Value(src, dimMap, Local), c)
    case Value(src, dimMap, Thread) => (Value(src, dimMap, Thread), c)
    case Reduce(init, dimMap, dims) => (Reduce(init, dimMap, dims), c)
    case Address(mem) => (Address(mem), c)
    case Induction(v) => (Induction(v), c)
    case Constant => (Constant, c)
  }

  function FreezeOperands(os: seq<Operand<()>>, c: Counts): (r: (seq<Operand<Lowering>>, Counts))
    ensures |r.0| == |os|
  {
    if os == [] then ([], c)
    else
      var (before, c') := FreezeOperands(os[..|os| - 1], c);
      var (last, c'') := FreezeOperand(os[|os| - 1], c');
      (before + [last], c'')
  }

  function FreezeInsts(insts: seq<Inst<()>>, c: Counts): (r: (seq<Inst<Lowering>>, Counts))
    ensures |r.0| == |insts|
  {
    if insts == [] then ([], c)
    else
      var (before, c') := FreezeInsts(insts[..|insts| - 1], c);
      var last := insts[|insts| - 1];
      var (operands, c'') := FreezeOperands(last.operands, c');
      (before + [Inst(last.operator, operands, last.iterDims)], c'')
  }

  function FreezeVars(vars: seq<IndVar<()>>, c: Counts): (r: (seq<IndVar<Lowering>>, Counts))
    ensures |r.0| == |vars|
  {
    if vars == [] then ([], c)
    else
      var (before, c') := FreezeVars(vars[..|vars| - 1], c);
      var last := vars[|vars| - 1];
      var (base, c'') := FreezeOperand(last.base, c');
      (before + [IndVar(last.increments, base)], c'')
  }

  // ----- The counter -----

  class Counter {
    var next: Counts

    constructor (start: Counts)
      ensures next == start
    {
      next := start;
    }

    method NextMem() returns (id: nat)
      modifies this
      ensures id == old(next).mem && next == old(next).(mem := id + 1)
    {
      id := next.mem;
      next := next.(mem := id + 1);
    }

    method NextInst() returns (id: nat)
      modifies this
      ensures id == old(next).inst && next == old(next).(inst := id + 1)
    {
      id := next.inst;
      next := next.(inst := id + 1);
    }

    method NextDim() returns (id: nat)
      modifies this
      ensures id == old(next).dim && next == old(next).(dim := id + 1)
    {
      id := next.dim;
      next := next.(dim := id + 1);
    }

    method NextDimMapping() returns (id: nat)
      modifies this
      ensures id == old(next).mapping && next == old(next).(mapping := id + 1)
    {
      id := next.mapping;
      next := next.(mapping := id + 1);
    }
  }

  /** Reserves the identifiers to lower an operand with this map. */
  method ForDimMap(dimMap: seq<Pair>, cnt: Counter) returns (l: Lowering)
    modifies cnt
    ensures l == Reserve(dimMap, old(cnt.next)) && cnt.next == AfterReserve(dimMap, old(cnt.next))
  {
    var mem := cnt.NextMem();
    var store := cnt.NextInst();
    var load := cnt.NextInst();
    var storeMap, loadMap: map<nat, Pair> := map[], map[];
    for k := 0 to |dimMap|
      invariant storeMap == StoreIds(dimMap[..k], old(cnt.next)) && loadMap == LoadIds(dimMap[..k], old(cnt.next))
      invariant cnt.next == AfterReserve(dimMap[..k], old(cnt.next))
    {
      assert dimMap[..k + 1][..k] == dimMap[..k];
      var storeDim := cnt.NextDim();
      var loadDim := cnt.NextDim();
      var storeMapping := cnt.NextDimMapping();
      var loadMapping := cnt.NextDimMapping();
      storeMap := storeMap[dimMap[k].0 := (storeDim, storeMapping)];
      loadMap := loadMap[dimMap[k].1 := (loadDim, loadMapping)];
    }
    assert dimMap[..|dimMap|] == dimMap;
    l := Lowering(mem, store, load, storeMap, loadMap);
  }

  method Freeze(o: Operand<()>, cnt: Counter) returns (frozen: Operand<Lowering>)
    modifies cnt
    ensures (frozen, cnt.next) == FreezeOperand(o, old(cnt.next))
  {
    match o {
      case Value(src, dimMap, Global(_)) =>
        var l := ForDimMap(dimMap, cnt);
        frozen := Value(src, dimMap, Global(l));
      case Value(src, dimMap, Local) => frozen := Value(src, dimMap, Local);
      case Value(src, dimMap, Thread) => frozen := Value(src, dimMap, Thread);
      case Reduce(init, dimMap, dims) => frozen := Reduce(init, dimMap, dims);
      case Address(mem) => frozen := Address(mem);
      case Induction(v) => frozen := Induction(v);
      case Constant => frozen := Constant;
    }
  }

  method FreezeInst(inst: Inst<()>, cnt: Counter) returns (frozen: Inst<Lowering>)
    modifies cnt
    ensures (frozen.operands, cnt.next) == FreezeOperands(inst.operands, old(cnt.next))
    ensures frozen.operator == inst.operator && frozen.iterDims == inst.iterDims
  {
    var operands := [];
    for k := 0 to |inst.operands|
      invariant (operands, cnt.next) == FreezeOperands(inst.operands[..k], old(cnt.next))
    {
      assert inst.operands[..k + 1][..k] == inst.operands[..k];
      var operand := Freeze(inst.operands[k], cnt);
      operands := operands + [operand];
    }
    assert inst.operands[..|inst.operands|] == inst.operands;
    frozen := Inst(inst.operator, operands, inst.iterDims);
  }

  // ----- Ranges of identifiers -----

  ghost predicate CountsLe(c: Counts, c': Counts) {
    c.mem <= c'.mem && c.inst <= c'.inst && c.dim <= c'.dim && c.mapping <= c'.mapping
  }

  /** The identifiers of an operand lie between two states of the counter. */
  ghost predicate InRange(l: Lowering, c: Counts, c': Counts) {
    && c.mem <= l.mem < c'.mem
    && (forall i :: i in Insts(l) ==> c.inst <= i < c'.inst)
    && (forall d :: d in Dims(l) ==> c.dim <= d < c'.dim)
    && (forall m :: m in Mappings(l) ==> c.mapping <= m < c'.mapping)
  }

  lemma RangesApart(l: Lowering, c: Counts, c': Counts, l': Lowering, c'': Counts)
    requires InRange(l, c, c') && InRange(l', c', c'')
    ensures Apart(l, l') && Apart(l', l)
  {
  }

  lemma RangeGrows(l: Lowering, c: Counts, c': Counts, d: Counts, d': Counts)
    requires InRange(l, c, c') && CountsLe(d, c) && CountsLe(c', d')
    ensures InRange(l, d, d')
  {
  }

  lemma {:induction false} StoreAt(dimMap: seq<Pair>, c: Counts, s: nat) returns (k: nat)
    requires s in StoreIds(dimMap, c)
    ensures k < |dimMap| && dimMap[k].0 == s && StoreIds(dimMap, c)[s] == (c.dim + 2 * k, c.mapping + 2 * k)
  {
    k := |dimMap| - 1;
    if dimMap[k].0 != s {
      k := StoreAt(dimMap[..k], c, s);
    }
  }

  lemma {:induction false} LoadAt(dimMap: seq<Pair>, c: Counts, s: nat) returns (k: nat)
    requires s in LoadIds(dimMap, c)
    ensures k < |dimMap| && dimMap[k].1 == s && LoadIds(dimMap, c)[s] == (c.dim + 2 * k + 1, c.mapping + 2 * k + 1)
  {
    k := |dimMap| - 1;
    if dimMap[k].1 != s {
      k := LoadAt(dimMap[..k], c, s);
    }
  }

  lemma {:induction false} AllKept(dimMap: seq<Pair>, c: Counts)
    ensures forall p :: p in dimMap ==> p.0 in StoreIds(dimMap, c) && p.1 in LoadIds(dimMap, c)
  {
    if dimMap != [] {
      var n := |dimMap| - 1;
      AllKept(dimMap[..n], c);
      assert dimMap == dimMap[..n] + [dimMap[n]];
    }
  }

  lemma ReserveInjective(dimMap: seq<Pair>, c: Counts)
    ensures Injective(Reserve(dimMap, c))
  {
    var l := Reserve(dimMap, c);
    forall s, t | s in l.storeMap && t in l.storeMap && s != t
      ensures l.storeMap[s].0 != l.storeMap[t].0 && l.storeMap[s].1 != l.storeMap[t].1
    {
      var i := StoreAt(dimMap, c, s);
      var j := StoreAt(dimMap, c, t);
    }
    forall s, t | s in l.loadMap && t in l.loadMap && s != t
      ensures l.loadMap[s].0 != l.loadMap[t].0 && l.loadMap[s].1 != l.loadMap[t].1
    {
      var i := LoadAt(dimMap, c, s);
      var j := LoadAt(dimMap, c, t);
    }
    forall s, t | s in l.storeMap && t in l.loadMap
      ensures l.storeMap[s].0 != l.loadMap[t].0 && l.storeMap[s].1 != l.loadMap[t].1
    {
      var i := StoreAt(dimMap, c, s);
      var j := LoadAt(dimMap, c, t);
    }
  }

  lemma ReserveInRange(dimMap: seq<Pair>, c: Counts)
    ensures InRange(Reserve(dimMap, c), c, AfterReserve(dimMap, c))
  {
    var l, c' := Reserve(dimMap, c), AfterReserve(dimMap, c);
    forall s | s in l.storeMap
      ensures c.dim <= l.storeMap[s].0 < c'.dim && c.mapping <= l.storeMap[s].1 < c'.mapping
    {
      var k := StoreAt(dimMap, c, s);
    }
    forall s | s in l.loadMap
      ensures c.dim <= l.loadMap[s].0 < c'.dim && c.mapping <= l.loadMap[s].1 < c'.mapping
    {
      var k := LoadAt(dimMap, c, s);
    }
  }

  // ----- All the operands -----

  ghost predicate IsGlobal(o: Operand<Lowering>) {
    o.Value? && o.scope.Global?
  }

  /** What is reserved for an operand, between two states of the counter. */
  ghost predicate Reserves(o: Operand<Lowering>, c: Counts, c': Counts) {
    CountsLe(c, c') &&
    (IsGlobal(o) ==>
      && Injective(o.scope.lowering) && InRange(o.scope.lowering, c, c')
      && forall p :: p in o.dimMap ==> p.0 in o.scope.lowering.storeMap && p.1 in o.scope.lowering.loadMap)
  }

  /** The same for several operands, no identifier being shared. */
  ghost predicate ReservesAll(os: seq<Operand<Lowering>>, c: Counts, c': Counts) {
    && CountsLe(c, c') && (forall k :: 0 <= k < |os| ==> Reserves(os[k], c, c'))
    && (forall j, k :: 0 <= j < k < |os| && IsGlobal(os[j]) && IsGlobal(os[k]) ==>
          Apart(os[j].scope.lowering, os[k].scope.lowering) && Apart(os[k].scope.lowering, os[j].scope.lowering))
  }

  lemma ReservesGrow(o: Operand<Lowering>, c: Counts, c': Counts, d: Counts, d': Counts)
    requires Reserves(o, c, c') && CountsLe(d, c) && CountsLe(c', d')
    ensures Reserves(o, d, d')
  {
    if IsGlobal(o) {
      RangeGrows(o.scope.lowering, c, c', d, d');
    }
  }

  lemma ReservesConcat(a: seq<Operand<Lowering>>, b: seq<Operand<Lowering>>, c: Counts, c': Counts, c'': Counts)
    requires ReservesAll(a, c, c') && ReservesAll(b, c', c'')
    ensures ReservesAll(a + b, c, c'')
  {
    forall k | 0 <= k < |a + b| ensures Reserves((a + b)[k], c, c'') {
      if k < |a| {
        ReservesGrow(a[k], c, c', c, c'');
      } else {
        ReservesGrow(b[k - |a|], c', c'', c, c'');
      }
    }
    forall j, k | 0 <= j < k < |a + b| && IsGlobal((a + b)[j]) && IsGlobal((a + b)[k])
      ensures Apart((a + b)[j].scope.lowering, (a + b)[k].scope.lowering)
      ensures Apart((a + b)[k].scope.lowering, (a + b)[j].scope.lowering)
    {
      if j < |a| <= k {
        assert Reserves(a[j], c, c') && Reserves(b[k - |a|], c', c'');
        RangesApart(a[j].scope.lowering, c, c', b[k - |a|].scope.lowering, c'');
      }
    }
  }

  lemma OperandReserves(o: Operand<()>, c: Counts)
    ensures ReservesAll([FreezeOperand(o, c).0], c, FreezeOperand(o, c).1)
  {
    if o.Value? && o.scope.Global? {
      ReserveInjective(o.dimMap, c);
      ReserveInRange(o.dimMap, c);
      AllKept(o.dimMap, c);
    }
    assert Reserves(FreezeOperand(o, c).0, c, FreezeOperand(o, c).1);
  }

  lemma {:induction false} OperandsReserve(os: seq<Operand<()>>, c: Counts)
    ensures ReservesAll(FreezeOperands(os, c).0, c, FreezeOperands(os, c).1)
  {
    if os != [] {
      var n := |os| - 1;
      var (before, c') := FreezeOperands(os[..n], c);
      OperandsReserve(os[..n], c);
      OperandReserves(os[n], c');
      ReservesConcat(before, [FreezeOperand(os[n], c').0], c, c', FreezeOperand(os[n], c').1);
    }
  }

  /** The operands of all the instructions, with their place. */
  ghost predicate InstsReserve(insts: seq<Inst<Lowering>>, c: Counts, c': Counts) {
    && CountsLe(c, c') && (forall i :: 0 <= i < |insts| ==> ReservesAll(insts[i].operands, c, c'))
    && (forall i, j :: 0 <= i < j < |insts| ==> OperandsApart(insts[i].operands, insts[j].operands))
  }

  ghost predicate OperandsApart(os: seq<Operand<Lowering>>, os': seq<Operand<Lowering>>) {
    forall k, n | 0 <= k < |os| && 0 <= n < |os'| && IsGlobal(os[k]) && IsGlobal(os'[n]) ::
      Apart(os[k].scope.lowering, os'[n].scope.lowering) && Apart(os'[n].scope.lowering, os[k].scope.lowering)
  }

  lemma AllGrow(os: seq<Operand<Lowering>>, c: Counts, c': Counts, d: Counts, d': Counts)
    requires ReservesAll(os, c, c') && CountsLe(d, c) && CountsLe(c', d')
    ensures ReservesAll(os, d, d')
  {
    forall k | 0 <= k < |os| ensures Reserves(os[k], d, d') {
      ReservesGrow(os[k], c, c', d, d');
    }
  }

  lemma InstsAppend(insts: seq<Inst<Lowering>>, inst: Inst<Lowering>, c: Counts, c': Counts, c'': Counts)
    requires InstsReserve(insts, c, c') && ReservesAll(inst.operands, c', c'')
    ensures InstsReserve(insts + [inst], c, c'')
  {
    var all := insts + [inst];
    forall i | 0 <= i < |all| ensures ReservesAll(all[i].operands, c, c'') {
      if i < |insts| {
        AllGrow(insts[i].operands, c, c', c, c'');
      } else {
        AllGrow(inst.operands, c', c'', c, c'');
      }
    }
    forall i, j | 0 <= i < j < |all| ensures OperandsApart(all[i].operands, all[j].operands) {
      if j == |insts| {
        RangesOfAll(insts[i].operands, c, c', inst.operands, c'');
      }
    }
  }

  lemma RangesOfAll(os: seq<Operand<Lowering>>, c: Counts, c': Counts, os': seq<Operand<Lowering>>, c'': Counts)
    requires ReservesAll(os, c, c') && ReservesAll(os', c', c'')
    ensures OperandsApart(os, os')
  {
    forall k, n | 0 <= k < |os| && 0 <= n < |os'| && IsGlobal(os[k]) && IsGlobal(os'[n])
      ensures Apart(os[k].scope.lowering, os'[n].scope.lowering) && Apart(os'[n].scope.lowering, os[k].scope.lowering)
    {
      assert Reserves(os[k], c, c') && Reserves(os'[n], c', c'');
      RangesApart(os[k].scope.lowering, c, c', os'[n].scope.lowering, c'');
    }
  }

  /** The identifiers reserved for different operands of a function are distinct, and follow those in use. */
  lemma {:induction false} FreezeReserves(insts: seq<Inst<()>>, c: Counts)
    ensures InstsReserve(FreezeInsts(insts, c).0, c, FreezeInsts(insts, c).1)
  {
    if insts != [] {
      var n := |insts| - 1;
      var (before, c') := FreezeInsts(insts[..n], c);
      FreezeReserves(insts[..n], c);
      OperandsReserve(insts[n].operands, c');
      var (operands, c'') := FreezeOperands(insts[n].operands, c');
      InstsAppend(before, Inst(insts[n].operator, operands, insts[n].iterDims), c, c', c'');
    }
  }

  // ----- The frozen function -----

  /** A function before its identifiers are reserved: everything it declares exists. */
  datatype OpenBody = OpenBody(insts: seq<Inst<()>>, dims: seq<Dim>, mappings: seq<Pair>, blocks: seq<Block>, indVars: seq<IndVar<()>>)

  function CountsOf(b: OpenBody): Counts {
    Counts(|b.blocks|, |b.insts|, |b.dims|, |b.mappings|)
  }

  function Declared<T>(s: seq<T>, capacity: nat): Slots<T> {
    Slots(map i: nat | i < |s| :: s[i], capacity)
  }

  function Frozen(b: OpenBody): Body {
    var (insts, c) := FreezeInsts(b.insts, CountsOf(b));
    var (indVars, c') := FreezeVars(b.indVars, c);
    Body(Declared(insts, c'.inst), Declared(b.dims, c'.dim), Declared(b.mappings, c'.mapping), Declared(b.blocks, c'.mem), indVars, {}, [])
  }

  method FreezeFunction(b: OpenBody) returns (body: Body)
    ensures body == Frozen(b)
  {
    var cnt := new Counter(CountsOf(b));
    var insts := [];
    for i := 0 to |b.insts|
      invariant (insts, cnt.next) == FreezeInsts(b.insts[..i], CountsOf(b))
    {
      assert b.insts[..i + 1][..i] == b.insts[..i];
      var inst := FreezeInst(b.insts[i], cnt);
      insts := insts + [inst];
    }
    assert b.insts[..|b.insts|] == b.insts;
    ghost var start := cnt.next;
    var indVars := [];
    for v := 0 to |b.indVars|
      invariant (indVars, cnt.next) == FreezeVars(b.indVars[..v], start)
    {
      assert b.indVars[..v + 1][..v] == b.indVars[..v];
      var base := Freeze(b.indVars[v].base, cnt);
      indVars := indVars + [IndVar(b.indVars[v].increments, base)];
    }
    assert b.indVars[..|b.indVars|] == b.indVars;
    var c := cnt.next;
    body := Body(Declared(insts, c.inst), Declared(b.dims, c.dim), Declared(b.mappings, c.mapping), Declared(b.blocks, c.mem), indVars, {}, []);
  }

  ghost predicate PairsOk(b: OpenBody, dimMap: seq<Pair>) {
    forall p :: p in dimMap ==>
      p.0 < |b.dims| && p.1 < |b.dims| &&
      exists m :: m in b.dims[p.0].mappings && m < |b.mappings| && (b.mappings[m].0 == p.1 || b.mappings[m].1 == p.1)
  }

  ghost predicate OperandOk(b: OpenBody, o: Operand<()>) {
    match o
    case Value(src, dimMap, _) => src < |b.insts| && PairsOk(b, dimMap)
    case Reduce(init, dimMap, dims) => init < |b.insts| && PairsOk(b, dimMap) && forall d :: d in dims ==> d < |b.dims|
    case Address(mem) => mem < |b.blocks|
    case Induction(v) => v < |b.indVars|
    case Constant => true
  }

  /** What the constructor of induction variables checks, and that the variable refers to what exists. */
  ghost predicate VarOk(b: OpenBody, v: IndVar<()>) {
    && OperandOk(b, v.base) && !v.base.Reduce? && (v.base.Value? ==> !v.base.scope.Global?)
    && (forall k :: 0 <= k < |v.increments| ==> v.increments[k].dim < |b.dims| && v.increments[k].step.Given?)
    && OnePerDim(v.increments)
  }

  /** The function refers to what it declares; temporary memory is only made by lowering. */
  ghost predicate OpenOk(b: OpenBody) {
    && (forall i :: 0 <= i < |b.insts| ==>
          && b.insts[i].operator.Plain?
          && (forall k :: 0 <= k < |b.insts[i].operands| ==> OperandOk(b, b.insts[i].operands[k]))
          && (forall d :: d in b.insts[i].iterDims ==> d < |b.dims|))
    && (forall m :: 0 <= m < |b.blocks| ==>
          b.blocks[m].mapped == [] && b.blocks[m].maybe == [] && forall i :: i in b.blocks[m].uses ==> i < |b.insts|)
    && (forall v :: 0 <= v < |b.indVars| ==> VarOk(b, b.indVars[v]))
    && (forall m :: 0 <= m < |b.mappings| ==> b.mappings[m].0 < |b.dims| && b.mappings[m].1 < |b.dims|)
    && (forall d, m :: 0 <= d < |b.dims| && m in b.dims[d].mappings ==> m < |b.mappings|)
  }

  lemma {:induction false} FrozenOperand(os: seq<Operand<()>>, c: Counts, k: nat) returns (c': Counts)
    requires k < |os|
    ensures FreezeOperands(os, c).0[k] == FreezeOperand(os[k], c').0
  {
    var n := |os| - 1;
    if k < n {
      c' := FrozenOperand(os[..n], c, k);
    } else {
      c' := FreezeOperands(os[..n], c).1;
    }
  }

  lemma {:induction false} FrozenInst(insts: seq<Inst<()>>, c: Counts, i: nat) returns (c': Counts)
    requires i < |insts|
    ensures
      var inst := FreezeInsts(insts, c).0[i];
      && inst.operands == FreezeOperands(insts[i].operands, c').0
      && inst.operator == insts[i].operator && inst.iterDims == insts[i].iterDims
  {
    var n := |insts| - 1;
    if i < n {
      c' := FrozenInst(insts[..n], c, i);
    } else {
      c' := FreezeInsts(insts[..n], c).1;
    }
  }

  lemma FrozenPairs(b: OpenBody, dimMap: seq<Pair>)
    requires PairsOk(b, dimMap)
    ensures PairsActive(Frozen(b), dimMap) && PairsMapped(Frozen(b), dimMap)
  {
    var body := Frozen(b);
    forall p | p in dimMap ensures FoundMapping(body, p) {
      var m :| m in b.dims[p.0].mappings && m < |b.mappings| && (b.mappings[m].0 == p.1 || b.mappings[m].1 == p.1);
      assert m in body.dims.filled[p.0].mappings && body.mappings.Active(m);
    }
  }

  lemma FrozenOperandActive(b: OpenBody, o: Operand<()>, c: Counts)
    requires OperandOk(b, o)
    ensures OperandActive(Frozen(b), FreezeOperand(o, c).0)
  {
    if o.HasMap() {
      FrozenPairs(b, o.dimMap);
    }
  }

  lemma FrozenInstActive(b: OpenBody, i: nat)
    requires OpenOk(b) && i < |b.insts|
    ensures InstActive(Frozen(b), FreezeInsts(b.insts, CountsOf(b)).0[i])
  {
    var inst := FreezeInsts(b.insts, CountsOf(b)).0[i];
    var c := FrozenInst(b.insts, CountsOf(b), i);
    forall k | 0 <= k < |inst.operands| ensures OperandActive(Frozen(b), inst.operands[k]) {
      var c' := FrozenOperand(b.insts[i].operands, c, k);
      FrozenOperandActive(b, b.insts[i].operands[k], c');
    }
  }

  /** Nothing is reserved for the bases of induction variables, which are never lowered. */
  lemma {:induction false} VarsReserveNothing(b: OpenBody, vars: seq<IndVar<()>>, c: Counts)
    requires forall v :: 0 <= v < |vars| ==> VarOk(b, vars[v])
    ensures FreezeVars(vars, c).1 == c
    ensures forall v :: 0 <= v < |vars| ==>
              FreezeVars(vars, c).0[v] == IndVar(vars[v].increments, FreezeOperand(vars[v].base, c).0)
  {
    if vars != [] {
      VarsReserveNothing(b, vars[..|vars| - 1], c);
      assert VarOk(b, vars[|vars| - 1]);
    }
  }

  lemma FrozenVarActive(b: OpenBody, v: nat)
    requires OpenOk(b) && v < |b.indVars|
    ensures VarActive(Frozen(b), Frozen(b).indVars[v])
  {
    var c := FreezeInsts(b.insts, CountsOf(b)).1;
    VarsReserveNothing(b, b.indVars, c);
    assert VarOk(b, b.indVars[v]);
    FrozenOperandActive(b, b.indVars[v].base, c);
  }

  lemma FrozenReserved(b: OpenBody)
    requires OpenOk(b)
    ensures AllReserved(Frozen(b))
  {
    var body, start := Frozen(b), CountsOf(b);
    var (insts, c) := FreezeInsts(b.insts, start);
    VarsReserveNothing(b, b.indVars, c);
    FreezeReserves(b.insts, start);
    forall i: nat, k: nat | Pending(body, i, k) ensures PendingOk(body, i, k) {
      assert ReservesAll(insts[i].operands, start, c);
      assert Reserves(insts[i].operands[k], start, c);
    }
    forall i: nat, k: nat, j: nat, n: nat | Pending(body, i, k) && Pending(body, j, n) && (i != j || k != n)
      ensures Apart(LoweringOf(body, i, k), LoweringOf(body, j, n))
    {
      if i == j {
        assert ReservesAll(insts[i].operands, start, c);
      } else {
        assert if i < j then OperandsApart(insts[i].operands, insts[j].operands) else OperandsApart(insts[j].operands, insts[i].operands);
      }
    }
  }

  /** A frozen function satisfies the invariant from which lowering may proceed in any order. */
  lemma FrozenInv(b: OpenBody)
    requires OpenOk(b)
    ensures Inv(Frozen(b))
  {
    FrozenReserved(b);
    var body := Frozen(b);
    forall i | body.insts.Active(i) ensures InstActive(body, body.insts.filled[i]) {
      FrozenInstActive(b, i);
    }
    forall v | 0 <= v < |body.indVars| ensures VarActive(body, body.indVars[v]) {
      FrozenVarActive(b, v);
    }
  }
}
