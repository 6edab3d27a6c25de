/** Loop nests, the events met when walking them, and the order in which events are compared. */
module Nests {
  import opened Wrappers

  datatype DimKind = Block | Thread | Loop | Unroll | OuterVector | InnerVector {
    predicate IsVector() {
      OuterVector? || InnerVector?
    }
  }

  /** A dimension, with the induction levels computed when entering it. */
  datatype Dim = Dim(id: nat, kind: DimKind, levels: seq<nat>)

  /** The nest the decisions describe: threads and vectors are nests of several dimensions. */
  datatype Nest =
    | Inst(id: nat)
    | Vector(dims: seq<Dim>, id: nat)
    | Sequential(dim: Dim, body: seq<Nest>)
    | Threads(dims: seq<Dim>, body: seq<Nest>)

  datatype Entry = SeqDim(dim: Dim) | ThreadDim(pos: nat, levels: seq<nat>)

  datatype Event = Exec(inst: nat) | Enter(id: nat, entry: Entry) | Exit(id: nat, thread: bool)

  function EnterOf(pos: nat -> nat, d: Dim): Event {
    Enter(d.id, if d.kind.Thread? then ThreadDim(pos(d.id), d.levels) else SeqDim(d))
  }

  function ExitOf(d: Dim): Event {
    Exit(d.id, d.kind.Thread?)
  }

  /** `inner` between the events that enter and leave each of `dims`, the first being the outermost. */
  function Brackets(pos: nat -> nat, dims: seq<Dim>, inner: seq<Event>): seq<Event> {
    if dims == [] then inner
    else [EnterOf(pos, dims[0])] + Brackets(pos, dims[1..], inner) + [ExitOf(dims[0])]
  }

  /** The events of a walk through a nest. */
  function Events(pos: nat -> nat, n: Nest): seq<Event> {
    match n
    case Inst(id) => [Exec(id)]
    case Vector(dims, id) => Brackets(pos, dims, [Exec(id)])
    case Sequential(dim, body) => Brackets(pos, [dim], EventsAll(pos, body))
    case Threads(dims, body) => Brackets(pos, dims, EventsAll(pos, body))
  }

  function EventsAll(pos: nat -> nat, body: seq<Nest>): seq<Event> {
    if body == [] then [] else Events(pos, body[0]) + EventsAll(pos, body[1..])
  }

  // ----- The comparison of events -----

  datatype Stmt = InstStmt(id: nat) | DimStmt(id: nat)

  datatype Order = Before | After | Inner | Outer | Merged | Ordered

  type OrderTable = (Stmt, Stmt) -> Order

  datatype Ordering = Less | Equal | Greater

  function StmtOf(e: Event): Stmt {
    match e
    case Exec(inst) => InstStmt(inst)
    case Enter(id, _) => DimStmt(id)
    case Exit(id, _) => DimStmt(id)
  }

  function CmpWithinStmt(a: Event, b: Event): Ordering {
    if (a.Enter? && b.Enter?) || (a.Exec? && b.Exec?) || (a.Exit? && b.Exit?) then Equal
    else if a.Enter? || b.Exit? then Less
    else Greater
  }

  /** The place of `a` with regard to `b`; nothing where the program panics. */
  function Cmp(order: OrderTable, a: Event, b: Event): Option<Ordering> {
    if StmtOf(a) == StmtOf(b) then Some(CmpWithinStmt(a, b))
    else
      match order(StmtOf(a), StmtOf(b))
      case Merged => Some(CmpWithinStmt(a, b))
      case Ordered =>
        if a.Exec? && b.Exec? then Some(if a.inst < b.inst then Less else if a.inst > b.inst then Greater else Equal)
        else None
      case Before => Some(Less)
      case After => Some(Greater)
      case Outer => if a.Enter? then Some(Less) else if a.Exit? then Some(Greater) else None
      case Inner => if b.Exit? then Some(Less) else if b.Enter? then Some(Greater) else None
  }

  // ----- The order a nest induces -----

  function DimStmts(dims: seq<Dim>): set<Stmt> {
    set d | d in dims :: DimStmt(d.id)
  }

  function Stmts(n: Nest): set<Stmt> {
    match n
    case Inst(id) => {InstStmt(id)}
    case Vector(dims, id) => DimStmts(dims) + {InstStmt(id)}
    case Sequential(dim, body) => {DimStmt(dim.id)} + StmtsAll(body)
    case Threads(dims, body) => DimStmts(dims) + StmtsAll(body)
  }

  function StmtsAll(body: seq<Nest>): set<Stmt> {
    if body == [] then {} else Stmts(body[0]) + StmtsAll(body[1..])
  }

  ghost predicate Encloses(order: OrderTable, d: Stmt, inner: set<Stmt>) {
    forall s :: s in inner ==> s != d && order(d, s) == Outer && order(s, d) == Inner
  }

  ghost predicate Precedes(order: OrderTable, a: Stmt, b: Stmt) {
    && a != b
    && (|| (order(a, b) == Before && order(b, a) == After)
        || (a.InstStmt? && b.InstStmt? && order(a, b) == Ordered && order(b, a) == Ordered && a.id < b.id))
  }

  ghost predicate AllPrecede(order: OrderTable, first: set<Stmt>, second: set<Stmt>) {
    forall a, b :: a in first && b in second ==> Precedes(order, a, b)
  }

  /** Each of `dims` encloses the next ones and `inner`. */
  ghost predicate Nested(order: OrderTable, dims: seq<Dim>, inner: set<Stmt>) {
    dims != [] ==>
      Encloses(order, DimStmt(dims[0].id), DimStmts(dims[1..]) + inner) && Nested(order, dims[1..], inner)
  }

  /** The decisions order statements as the nest places them; unordered instructions follow their ids. */
  ghost predicate Induced(order: OrderTable, n: Nest) {
    match n
    case Inst(_) => true
    case Vector(dims, id) => Nested(order, dims, {InstStmt(id)})
    case Sequential(dim, body) => Nested(order, [dim], StmtsAll(body)) && InducedAll(order, body)
    case Threads(dims, body) => Nested(order, dims, StmtsAll(body)) && InducedAll(order, body)
  }

  ghost predicate InducedAll(order: OrderTable, body: seq<Nest>) {
    body != [] ==>
      && Induced(order, body[0]) && InducedAll(order, body[1..])
      && AllPrecede(order, Stmts(body[0]), StmtsAll(body[1..]))
  }
}
