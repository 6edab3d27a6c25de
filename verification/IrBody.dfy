/** The body of a function whose objects are created with identifiers reserved beforehand. */
module IrBodies {
  import opened Wrappers
  import opened SparseVecs

  type Pair = (nat, nat)

  /** The identifiers reserved to lower one operand; dimensions come with the one of their mapping. */
  datatype Lowering = Lowering(mem: nat, store: nat, load: nat, storeMap: map<nat, Pair>, loadMap: map<nat, Pair>)

  datatype Scope<+L> = Local | Thread | Global(lowering: L)

  datatype Operand<+L> =
    | Value(src: nat, dimMap: seq<Pair>, scope: Scope<L>)
    | Reduce(init: nat, dimMap: seq<Pair>, dims: seq<nat>)
    | Address(mem: nat)
    | Induction(v: nat)
    | Constant
  {
    predicate HasMap() {
      Value? || Reduce?
    }
  }

  /** A size given by the program, or that of the elements of a block times those of some dimensions. */
  datatype Extent = Given(name: nat) | Elements(mem: nat, inner: seq<nat>)

  datatype Increment = Increment(dim: nat, step: Extent)

  datatype IndVar<+L> = IndVar(increments: seq<Increment>, base: Operand<L>)

  /** A temporary access refers to a block whose layout is not decided yet. */
  datatype Operator = Plain | TmpStore(mem: nat) | TmpLoad(mem: nat)

  datatype Inst<+L> = Inst(operator: Operator, operands: seq<Operand<L>>, iterDims: set<nat>)

  datatype Dim = Dim(mappings: set<nat>)

  /** A block, the pairs of dimensions it maps, and those that may still be merged instead. */
  datatype Block = Block(uses: seq<nat>, mapped: seq<Pair>, maybe: seq<Pair>)

  datatype Body = Body(
    insts: Slots<Inst<Lowering>>,
    dims: Slots<Dim>,
    mappings: Slots<Pair>,
    blocks: Slots<Block>,
    indVars: seq<IndVar<Lowering>>,
    layouts: set<nat>,
    toLower: seq<nat>)

  // ----- Dimension maps -----

  function Without(dimMap: seq<Pair>, a: nat, b: nat): (r: seq<Pair>)
    ensures forall p :: p in r <==> p in dimMap && p != (a, b) && p != (b, a)
  {
    if dimMap == [] then []
    else if dimMap[0] == (a, b) || dimMap[0] == (b, a) then Without(dimMap[1..], a, b)
    else [dimMap[0]] + Without(dimMap[1..], a, b)
  }

  function Only(dimMap: seq<Pair>, a: nat, b: nat): (r: seq<Pair>)
    ensures forall p :: p in r <==> p in dimMap && (p == (a, b) || p == (b, a))
  {
    if dimMap == [] then []
    else if dimMap[0] == (a, b) || dimMap[0] == (b, a) then [dimMap[0]] + Only(dimMap[1..], a, b)
    else Only(dimMap[1..], a, b)
  }

  /** No dimension is mapped twice, on either side. */
  ghost predicate OneToOne(dimMap: seq<Pair>) {
    forall i, j :: 0 <= i < j < |dimMap| ==> dimMap[i].0 != dimMap[j].0 && dimMap[i].1 != dimMap[j].1
  }

  // ----- Creation of objects with reserved identifiers -----

  /** A mapping to create: its identifier, an existing dimension and the one to create. */
  datatype NewMapping = NewMapping(id: nat, old_: nat, dim: nat)

  function Register(dims: Slots<Dim>, d: nat, mapping: nat): Slots<Dim>
    requires dims.Active(d)
  {
    dims.Set(d, Dim(dims.filled[d].mappings + {mapping}))
  }

  /** Creates a dimension with the size of an existing one and maps both; nothing if the program panics. */
  function ActivateOne(b: Body, m: NewMapping): Option<Body> {
    if !b.dims.Active(m.old_) || !b.dims.Hole(m.dim) || !b.mappings.Hole(m.id) then None
    else
      var dims := b.dims.Set(m.dim, Dim({}));
      Some(b.(dims := Register(Register(dims, m.old_, m.id), m.dim, m.id),
              mappings := b.mappings.Set(m.id, (m.old_, m.dim))))
  }

  function Activate(b: Body, ms: seq<NewMapping>): Option<Body> {
    if ms == [] then Some(b)
    else
      match Activate(b, ms[..|ms| - 1])
      case None => None
      case Some(b') => ActivateOne(b', ms[|ms| - 1])
  }

  predicate FoundMapping(b: Body, p: Pair) {
    && b.dims.Active(p.0)
    && exists m :: m in b.dims.filled[p.0].mappings && b.mappings.Active(m) &&
         (b.mappings.filled[m].0 == p.1 || b.mappings.filled[m].1 == p.1)
  }

  function DimMapOf(o: Operand<Lowering>): seq<Pair> {
    if o.HasMap() then o.dimMap else []
  }

  /** Creates an instruction that uses a temporary block. */
  function CreateInst(b: Body, id: nat, inst: Inst<Lowering>): Option<Body>
    requires !inst.operator.Plain?
  {
    var mem := inst.operator.mem;
    if (forall k, j :: 0 <= k < |inst.operands| && 0 <= j < |DimMapOf(inst.operands[k])| ==>
          FoundMapping(b, DimMapOf(inst.operands[k])[j])) &&
       (forall d :: d in inst.iterDims ==> b.dims.Active(d)) &&
       b.blocks.Active(mem) && b.insts.Hole(id)
    then
      var block := b.blocks.filled[mem];
      Some(b.(blocks := b.blocks.Set(mem, block.(uses := block.uses + [id])), insts := b.insts.Set(id, inst)))
    else None
  }

  // ----- Lowering of an operand -----

  datatype Outcome = Done(body: Body) | Refused | Panic

  function StoreMappings(l: Lowering, dimMap: seq<Pair>): (r: seq<NewMapping>)
    requires forall k :: 0 <= k < |dimMap| ==> dimMap[k].0 in l.storeMap
  {
    seq(|dimMap|, k requires 0 <= k < |dimMap| =>
      var (dim, id) := l.storeMap[dimMap[k].0]; NewMapping(id, dimMap[k].0, dim))
  }

  function LoadMappings(l: Lowering, dimMap: seq<Pair>): (r: seq<NewMapping>)
    requires forall k :: 0 <= k < |dimMap| ==> dimMap[k].1 in l.loadMap
  {
    seq(|dimMap|, k requires 0 <= k < |dimMap| =>
      var (dim, id) := l.loadMap[dimMap[k].1]; NewMapping(id, dimMap[k].1, dim))
  }

  function NewDims(ms: seq<NewMapping>): set<nat> {
    set k | 0 <= k < |ms| :: ms[k].dim
  }

  function OldToNew(ms: seq<NewMapping>): seq<Pair> {
    seq(|ms|, k requires 0 <= k < |ms| => (ms[k].old_, ms[k].dim))
  }

  function NewToOld(ms: seq<NewMapping>): seq<Pair> {
    seq(|ms|, k requires 0 <= k < |ms| => (ms[k].dim, ms[k].old_))
  }

  function Zip(stores: seq<NewMapping>, loads: seq<NewMapping>): seq<Pair>
    requires |stores| == |loads|
  {
    seq(|stores|, k requires 0 <= k < |stores| => (stores[k].dim, loads[k].dim))
  }

  /** Creates a temporary block, whose layout maps each store dimension to a load dimension. */
  function CreateBlock(b: Body, mem: nat, pairs: seq<Pair>): Option<Body> {
    if pairs == [] || !b.blocks.Hole(mem) then None
    else Some(b.(blocks := b.blocks.Set(mem, Block([], [], pairs)), layouts := b.layouts + {mem}))
  }

  function StoreInst(src: nat, l: Lowering, stores: seq<NewMapping>): Inst<Lowering> {
    Inst(TmpStore(l.mem), [Value(src, OldToNew(stores), Local)], NewDims(stores))
  }

  function LoadInst(l: Lowering, loads: seq<NewMapping>): Inst<Lowering> {
    Inst(TmpLoad(l.mem), [], NewDims(loads))
  }

  /** Creates the store of the value made by `src`, and the load. */
  function CreateAccesses(b: Body, src: nat, l: Lowering, stores: seq<NewMapping>, loads: seq<NewMapping>): Option<Body> {
    if !b.insts.Active(src) then None
    else
      match CreateInst(b, l.store, StoreInst(src, l, stores))
      case None => None
      case Some(b') => CreateInst(b', l.load, LoadInst(l, loads))
  }

  /** The objects made to store a value and load it back. */
  function CreateObjects(b: Body, src: nat, l: Lowering, stores: seq<NewMapping>, loads: seq<NewMapping>): Option<Body>
    requires |stores| == |loads|
  {
    match Activate(b, stores + loads)
    case None => None
    case Some(b') =>
      match CreateBlock(b', l.mem, Zip(stores, loads))
      case None => None
      case Some(b'') => CreateAccesses(b'', src, l, stores, loads)
  }

  function SetOperand(b: Body, i: nat, k: nat, o: Operand<Lowering>): Body
    requires b.insts.Active(i) && k < |b.insts.filled[i].operands|
  {
    var inst := b.insts.filled[i];
    b.(insts := b.insts.Set(i, inst.(operands := inst.operands[k := o])))
  }

  predicate Known(l: Lowering, dimMap: seq<Pair>) {
    forall k :: 0 <= k < |dimMap| ==> dimMap[k].0 in l.storeMap && dimMap[k].1 in l.loadMap
  }

  /** Replaces a value transferred between loops by a store and a load in temporary memory. */
  function LowerValue(b: Body, i: nat, k: nat, src: nat, dimMap: seq<Pair>, l: Lowering): Outcome
    requires Known(l, dimMap)
  {
    var stores, loads := StoreMappings(l, dimMap), LoadMappings(l, dimMap);
    match CreateObjects(b, src, l, stores, loads)
    case None => Panic
    case Some(b') =>
      if b'.insts.Active(i) && k < |b'.insts.filled[i].operands|
      then Done(SetOperand(b', i, k, Value(l.load, NewToOld(loads), Local)))
      else Panic
  }

  function LowerDimMap(b: Body, i: nat, k: nat): Outcome {
    if !b.insts.Active(i) || k >= |b.insts.filled[i].operands| then Panic
    else
      match b.insts.filled[i].operands[k]
      case Value(src, dimMap, Global(l)) => if Known(l, dimMap) then LowerValue(b, i, k, src, dimMap, l) else Panic
      case Value(_, _, _) => Refused
      case Reduce(_, _, _) => Refused
      case _ => Panic
  }

  // ----- Decisions on pairs of dimensions -----

  function MergeOperand(o: Operand<Lowering>, a: nat, b: nat): Operand<Lowering> {
    if o.HasMap() then o.(dimMap := Without(o.dimMap, a, b)) else o
  }

  function MergeInst(inst: Inst<Lowering>, a: nat, b: nat): Inst<Lowering> {
    inst.(operands := seq(|inst.operands|, k requires 0 <= k < |inst.operands| => MergeOperand(inst.operands[k], a, b)))
  }

  function MergeVars(vars: seq<IndVar<Lowering>>, a: nat, b: nat): (r: seq<IndVar<Lowering>>)
    ensures |r| == |vars|
  {
    seq(|vars|, v requires 0 <= v < |vars| => vars[v].(base := MergeOperand(vars[v].base, a, b)))
  }

  /** The blocks that have just become ready, in any order. */
  ghost predicate ListsReady(ready: seq<nat>, before: Slots<Block>, after: Slots<Block>) {
    && (forall i, j :: 0 <= i < j < |ready| ==> ready[i] != ready[j])
    && (forall id :: id in ready <==>
          id in before.filled && id in after.filled && before.filled[id].maybe != [] && after.filled[id].maybe == [])
  }

  /** The blocks once `a` and `b` are one dimension. */
  function MergeBlocks(blocks: Slots<Block>, a: nat, b: nat): Slots<Block> {
    blocks.(filled := map id | id in blocks.filled ::
      blocks.filled[id].(maybe := Without(blocks.filled[id].maybe, a, b)))
  }

  /** The blocks once `a` and `b` are known to differ. */
  function SplitBlocks(blocks: Slots<Block>, layouts: set<nat>, a: nat, b: nat): Slots<Block> {
    blocks.(filled := map id | id in blocks.filled ::
      var block := blocks.filled[id];
      if id in layouts
      then block.(maybe := Without(block.maybe, a, b), mapped := block.mapped + Only(block.maybe, a, b))
      else block)
  }

  ghost predicate Merged(b: Body, l: nat, r: nat, b': Body) {
    exists ready :: ListsReady(ready, b.blocks, b'.blocks) &&
      b' == b.(
        insts := b.insts.(filled := map i | i in b.insts.filled :: MergeInst(b.insts.filled[i], l, r)),
        blocks := MergeBlocks(b.blocks, l, r),
        indVars := MergeVars(b.indVars, l, r),
        toLower := b.toLower + ready)
  }

  ghost predicate NotMerged(b: Body, l: nat, r: nat, b': Body) {
    exists ready :: ListsReady(ready, b.blocks, b'.blocks) &&
      b' == b.(blocks := SplitBlocks(b.blocks, b.layouts, l, r), toLower := b.toLower + ready)
  }

  // ----- Lowering of a layout -----

  function Position(s: seq<nat>, x: nat): (p: nat)
    requires x in s
    ensures p < |s| && s[p] == x && x !in s[..p]
  {
    if s[0] == x then 0 else
      var p := Position(s[1..], x);
      assert s[..p + 1] == [s[0]] + s[1..][..p];
      p + 1
  }

  function SwapRemove(s: seq<nat>, x: nat): (r: seq<nat>)
    requires x in s
  {
    s[Position(s, x) := s[|s| - 1]][..|s| - 1]
  }

  /** The increments along the dimensions of a block, from the innermost one. */
  function Increments(mem: nat, dims: seq<nat>): (r: seq<Increment>)
    ensures |r| == |dims|
  {
    if dims == [] then [] else Increments(mem, dims[1..]) + [Increment(dims[0], Elements(mem, dims[1..]))]
  }

  ghost predicate NoRepeat(dims: seq<nat>) {
    forall i, j :: 0 <= i < j < |dims| ==> dims[i] != dims[j]
  }

  predicate OnePerDim(increments: seq<Increment>) {
    forall i, j :: 0 <= i < j < |increments| ==> increments[i].dim != increments[j].dim
  }

  /** A variable has one increment per dimension, and its base cannot be reduced or lowered. */
  function NewIndVar(increments: seq<Increment>, base: Operand<Lowering>): Option<IndVar<Lowering>> {
    if !OnePerDim(increments) || base.Reduce? || (base.Value? && base.scope.Global?) then None
    else Some(IndVar(increments, base))
  }

  /** Adds a variable that points to the element of a block at the indexes of some dimensions. */
  function GenIndex(b: Body, mem: nat, dims: seq<nat>): Option<Body> {
    if exists d :: d in dims && !b.dims.Active(d) then None
    else
      match NewIndVar(Increments(mem, dims), Address(mem))
      case None => None
      case Some(v) => Some(b.(indVars := b.indVars + [v]))
  }

  /** A temporary access becomes a conventional one, at the address given by an induction variable. */
  function LowerAccess(inst: Inst<Lowering>, store: nat, load: nat): Inst<Lowering> {
    inst.(operator := Plain, operands := [Induction(if inst.operator.TmpStore? then store else load)] + inst.operands)
  }

  function LowerAccesses(insts: Slots<Inst<Lowering>>, uses: seq<nat>, mem: nat, store: nat, load: nat): Option<Slots<Inst<Lowering>>> {
    if uses == [] then Some(insts)
    else
      match LowerAccesses(insts, uses[..|uses| - 1], mem, store, load)
      case None => None
      case Some(insts') =>
        var i := uses[|uses| - 1];
        if insts'.Active(i) && !insts'.filled[i].operator.Plain? && insts'.filled[i].operator.mem == mem
        then Some(insts'.Set(i, LowerAccess(insts'.filled[i], store, load)))
        else None
  }

  /** Adds the variables for the store and the load. */
  function GenIndexes(b: Body, id: nat, storeDims: seq<nat>, loadDims: seq<nat>): Option<Body> {
    match GenIndex(b, id, storeDims)
    case None => None
    case Some(b') => GenIndex(b', id, loadDims)
  }

  /** Lowers a layout whose dimensions are ordered as given, from the outermost one. */
  function LowerLayout(b: Body, id: nat, storeDims: seq<nat>, loadDims: seq<nat>): Outcome {
    if id !in b.toLower || id !in b.layouts || !b.blocks.Active(id) || b.blocks.filled[id].maybe != [] then Panic
    else
      match GenIndexes(b.(layouts := b.layouts - {id}, toLower := SwapRemove(b.toLower, id)), id, storeDims, loadDims)
      case None => Panic
      case Some(b') =>
        match LowerAccesses(b'.insts, b'.blocks.filled[id].uses, id, |b.indVars|, |b.indVars| + 1)
        case None => Panic
        case Some(insts) => Done(b'.(insts := insts))
  }
}
