/** What holds of a function body while its identifiers are activated one by one. */
module IrInvariants {
  import opened Wrappers
  import opened SparseVecs
  import opened IrBodies

  // ----- References -----

  ghost predicate PairsActive(b: Body, dimMap: seq<Pair>) {
    forall p :: p in dimMap ==> b.dims.Active(p.0) && b.dims.Active(p.1)
  }

  ghost predicate PairsMapped(b: Body, dimMap: seq<Pair>) {
    forall p :: p in dimMap ==> FoundMapping(b, p)
  }

  ghost predicate OperandActive(b: Body, o: Operand<Lowering>) {
    match o
    case Value(src, dimMap, _) => b.insts.Active(src) && PairsActive(b, dimMap) && PairsMapped(b, dimMap)
    case Reduce(init, dimMap, dims) =>
      b.insts.Active(init) && PairsActive(b, dimMap) && PairsMapped(b, dimMap) && forall d :: d in dims ==> b.dims.Active(d)
    case Address(mem) => b.blocks.Active(mem)
    case Induction(v) => v < |b.indVars|
    case Constant => true
  }

  ghost predicate InstActive(b: Body, inst: Inst<Lowering>) {
    && (forall k :: 0 <= k < |inst.operands| ==> OperandActive(b, inst.operands[k]))
    && (forall d :: d in inst.iterDims ==> b.dims.Active(d))
    && (!inst.operator.Plain? ==> b.blocks.Active(inst.operator.mem))
  }

  ghost predicate BlockActive(b: Body, block: Block) {
    && (forall i :: i in block.uses ==> b.insts.Active(i))
    && PairsActive(b, block.mapped) && PairsActive(b, block.maybe)
  }

  ghost predicate ExtentActive(b: Body, e: Extent) {
    e.Elements? ==> b.blocks.Active(e.mem) && forall d :: d in e.inner ==> b.dims.Active(d)
  }

  ghost predicate VarActive(b: Body, v: IndVar<Lowering>) {
    && OperandActive(b, v.base) && !v.base.Reduce? && (v.base.Value? ==> !v.base.scope.Global?)
    && (forall k :: 0 <= k < |v.increments| ==> b.dims.Active(v.increments[k].dim) && ExtentActive(b, v.increments[k].step))
    && OnePerDim(v.increments)
  }

  /** Every identifier an active object refers to is active. */
  ghost predicate AllActive(b: Body) {
    && (forall i :: b.insts.Active(i) ==> InstActive(b, b.insts.filled[i]))
    && (forall m :: b.blocks.Active(m) ==> BlockActive(b, b.blocks.filled[m]))
    && (forall v :: 0 <= v < |b.indVars| ==> VarActive(b, b.indVars[v]))
    && (forall m :: b.mappings.Active(m) ==> b.dims.Active(b.mappings.filled[m].0) && b.dims.Active(b.mappings.filled[m].1))
    && (forall d, m :: b.dims.Active(d) && m in b.dims.filled[d].mappings ==> b.mappings.Active(m))
  }

  // ----- Reserved identifiers -----

  function Dims(l: Lowering): set<nat> {
    (set s | s in l.storeMap :: l.storeMap[s].0) + (set s | s in l.loadMap :: l.loadMap[s].0)
  }

  function Mappings(l: Lowering): set<nat> {
    (set s | s in l.storeMap :: l.storeMap[s].1) + (set s | s in l.loadMap :: l.loadMap[s].1)
  }

  function Insts(l: Lowering): set<nat> {
    {l.store, l.load}
  }

  /** No identifier is reserved twice by the same operand. */
  ghost predicate Injective(l: Lowering) {
    && l.store != l.load
    && (forall s, t :: s in l.storeMap && t in l.storeMap && s != t ==>
          l.storeMap[s].0 != l.storeMap[t].0 && l.storeMap[s].1 != l.storeMap[t].1)
    && (forall s, t :: s in l.loadMap && t in l.loadMap && s != t ==>
          l.loadMap[s].0 != l.loadMap[t].0 && l.loadMap[s].1 != l.loadMap[t].1)
    && (forall s, t :: s in l.storeMap && t in l.loadMap ==>
          l.storeMap[s].0 != l.loadMap[t].0 && l.storeMap[s].1 != l.loadMap[t].1)
  }

  /** The identifiers reserved by an operand are still holes. */
  ghost predicate Reserved(b: Body, l: Lowering) {
    && b.blocks.Hole(l.mem)
    && (forall i :: i in Insts(l) ==> b.insts.Hole(i))
    && (forall d :: d in Dims(l) ==> b.dims.Hole(d))
    && (forall m :: m in Mappings(l) ==> b.mappings.Hole(m))
  }

  /** Two operands share no reserved identifier. */
  ghost predicate Apart(l: Lowering, l': Lowering) {
    && l.mem != l'.mem && Insts(l) !! Insts(l') && Dims(l) !! Dims(l') && Mappings(l) !! Mappings(l')
  }

  /** Operand `k` of instruction `i` may still be lowered. */
  ghost predicate Pending(b: Body, i: nat, k: nat) {
    b.insts.Active(i) && k < |b.insts.filled[i].operands| &&
    b.insts.filled[i].operands[k].Value? && b.insts.filled[i].operands[k].scope.Global?
  }

  ghost function LoweringOf(b: Body, i: nat, k: nat): Lowering
    requires Pending(b, i, k)
  {
    b.insts.filled[i].operands[k].scope.lowering
  }

  ghost predicate PendingOk(b: Body, i: nat, k: nat)
    requires Pending(b, i, k)
  {
    var l, dimMap := LoweringOf(b, i, k), b.insts.filled[i].operands[k].dimMap;
    && Injective(l) && Reserved(b, l)
    && forall p :: p in dimMap ==> p.0 in l.storeMap && p.1 in l.loadMap
  }

  ghost predicate AllReserved(b: Body) {
    && (forall i, k :: Pending(b, i, k) ==> PendingOk(b, i, k))
    && (forall i, k, j, n :: Pending(b, i, k) && Pending(b, j, n) && (i != j || k != n) ==>
          Apart(LoweringOf(b, i, k), LoweringOf(b, j, n)))
  }

  // ----- Layouts -----

  /** The layouts to lower are those of the temporary blocks without undecided pair, once each. */
  ghost predicate LayoutsOk(b: Body) {
    && (forall i, j :: 0 <= i < j < |b.toLower| ==> b.toLower[i] != b.toLower[j])
    && (forall id :: id in b.layouts ==> b.blocks.Active(id) && TemporaryOk(b, id))
    && (forall id :: id in b.toLower <==> id in b.layouts && b.blocks.filled[id].maybe == [])
    && (forall id :: b.blocks.Active(id) && id !in b.layouts ==> b.blocks.filled[id].maybe == [])
  }

  /** No operand of the instruction can be lowered. */
  ghost predicate NothingPending(inst: Inst<Lowering>) {
    forall k :: 0 <= k < |inst.operands| ==> inst.operands[k].Value? ==> !inst.operands[k].scope.Global?
  }

  /** A temporary block is used by its store and its load, and by nothing else. */
  ghost predicate TemporaryOk(b: Body, id: nat)
    requires b.blocks.Active(id)
  {
    var uses := b.blocks.filled[id].uses;
    && |uses| == 2 && uses[0] != uses[1] && b.insts.Active(uses[0]) && b.insts.Active(uses[1])
    && b.insts.filled[uses[0]].operator == TmpStore(id) && b.insts.filled[uses[1]].operator == TmpLoad(id)
    && NothingPending(b.insts.filled[uses[0]]) && NothingPending(b.insts.filled[uses[1]])
  }

  ghost predicate Inv(b: Body) {
    AllActive(b) && AllReserved(b) && LayoutsOk(b)
  }
}
