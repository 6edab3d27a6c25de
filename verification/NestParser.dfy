/** The parser that rebuilds a loop nest from its sorted events. */
module NestParser {
  import opened Wrappers
  import opened Nests

  /** The control flow graph. A vector instruction keeps the dimensions of each vectorisation level. */
  datatype Graph =
    | Root(body: seq<Graph>)
    | Loop(dim: Dim, body: seq<Graph>)
    | Instruction(outer: seq<Dim>, inner: seq<Dim>, inst: nat)
    | Threads(active: seq<Option<nat>>, levels: seq<nat>, body: seq<Graph>)

  // ----- The graph of a nest -----

  function OfKind(dims: seq<Dim>, kind: DimKind): seq<Dim> {
    if dims == [] then []
    else if dims[|dims| - 1].kind == kind then OfKind(dims[..|dims| - 1], kind) + [dims[|dims| - 1]]
    else OfKind(dims[..|dims| - 1], kind)
  }

  /** The dimension active at each thread position. */
  function Active(pos: nat -> nat, dims: seq<Dim>, n: nat): (active: seq<Option<nat>>)
    requires forall k :: 0 <= k < |dims| ==> pos(dims[k].id) < n
    ensures |active| == n
  {
    if dims == [] then seq(n, _ => None)
    else
      var last := dims[|dims| - 1].id;
      Active(pos, dims[..|dims| - 1], n)[pos(last) := Some(last)]
  }

  function LevelsOf(dims: seq<Dim>): seq<nat> {
    if dims == [] then [] else LevelsOf(dims[..|dims| - 1]) + dims[|dims| - 1].levels
  }

  /** Thread dimensions are perfectly nested, at distinct positions, and never inside other threads. */
  ghost predicate WellFormed(pos: nat -> nat, n: nat, nest: Nest) {
    match nest
    case Inst(_) => true
    case Vector(dims, _) => dims != [] && forall k :: 0 <= k < |dims| ==> dims[k].kind.OuterVector? || dims[k].kind.InnerVector?
    case Sequential(dim, body) => (dim.kind.Loop? || dim.kind.Unroll?) && WellFormedAll(pos, n, body)
    case Threads(dims, body) =>
      && dims != [] && (forall k :: 0 <= k < |dims| ==> dims[k].kind.Thread? && pos(dims[k].id) < n)
      && (forall i, j :: 0 <= i < j < |dims| ==> pos(dims[i].id) != pos(dims[j].id))
      && WellFormedAll(pos, 0, body)
  }

  ghost predicate WellFormedAll(pos: nat -> nat, n: nat, body: seq<Nest>) {
    forall k :: 0 <= k < |body| ==> WellFormed(pos, n, body[k])
  }

  ghost function GraphOf(pos: nat -> nat, n: nat, nest: Nest): Graph
    requires WellFormed(pos, n, nest)
  {
    match nest
    case Inst(id) => Instruction([], [], id)
    case Vector(dims, id) => Instruction(OfKind(dims, OuterVector), OfKind(dims, InnerVector), id)
    case Sequential(dim, body) => Graph.Loop(dim, GraphOfAll(pos, n, body))
    case Threads(dims, body) => Graph.Threads(Active(pos, dims, n), LevelsOf(dims), GraphOfAll(pos, 0, body))
  }

  ghost function GraphOfAll(pos: nat -> nat, n: nat, body: seq<Nest>): seq<Graph>
    requires WellFormedAll(pos, n, body)
  {
    if body == [] then []
    else GraphOfAll(pos, n, body[..|body| - 1]) + [GraphOf(pos, n, body[|body| - 1])]
  }

  // ----- Streams of events -----

  function Enters(pos: nat -> nat, dims: seq<Dim>): seq<Event> {
    if dims == [] then [] else [EnterOf(pos, dims[0])] + Enters(pos, dims[1..])
  }

  /** The innermost dimension is left first. */
  function Exits(dims: seq<Dim>): seq<Event> {
    if dims == [] then [] else Exits(dims[1..]) + [ExitOf(dims[0])]
  }

  lemma {:induction false} BracketsAre(pos: nat -> nat, dims: seq<Dim>, inner: seq<Event>)
    ensures Brackets(pos, dims, inner) == Enters(pos, dims) + inner + Exits(dims)
  {
    if dims != [] {
      BracketsAre(pos, dims[1..], inner);
    }
  }

  lemma {:induction false} ExitsAre(dims: seq<Dim>)
    ensures |Exits(dims)| == |dims|
    ensures forall k :: 0 <= k < |dims| ==> Exits(dims)[k] == ExitOf(dims[|dims| - 1 - k])
  {
    if dims != [] {
      ExitsAre(dims[1..]);
    }
  }

  lemma {:induction false} VectorLevels(dims: seq<Dim>)
    requires forall k :: 0 <= k < |dims| ==> dims[k].kind.IsVector()
    ensures |OfKind(dims, OuterVector)| + |OfKind(dims, InnerVector)| == |dims|
  {
    if dims != [] {
      VectorLevels(dims[..|dims| - 1]);
    }
  }

  class EventStream {
    var remaining: seq<Event>

    constructor (events: seq<Event>)
      ensures remaining == events
    {
      remaining := events;
    }

    method Next() returns (e: Option<Event>)
      modifies this
      ensures old(remaining) == [] ==> e == None && remaining == []
      ensures old(remaining) != [] ==> e == Some(old(remaining)[0]) && remaining == old(remaining)[1..]
    {
      if remaining == [] {
        return None;
      }
      e, remaining := Some(remaining[0]), remaining[1..];
    }

    predicate NextEntersThread()
      reads this
    {
      remaining != [] && remaining[0].Enter? && remaining[0].entry.ThreadDim?
    }

    predicate NextExitsThread()
      reads this
    {
      remaining != [] && remaining[0].Exit? && remaining[0].thread
    }
  }

  // ----- Parsing -----

  lemma EntersStep(pos: nat -> nat, dims: seq<Dim>, k: nat)
    requires k < |dims|
    ensures Enters(pos, dims[k..]) == [EnterOf(pos, dims[k])] + Enters(pos, dims[k + 1..])
  {
    assert dims[k..][1..] == dims[k + 1..];
  }

  lemma HeadOf<T>(h: T, s: seq<T>, x: T, xs: seq<T>, tail: seq<T>)
    requires [h] + s == ([x] + xs) + tail
    ensures h == x && s == xs + tail
  {
    assert ([h] + s)[0] == h && ([h] + s)[1..] == s;
    assert (([x] + xs) + tail)[0] == x && (([x] + xs) + tail)[1..] == xs + tail;
  }

  /** The next event of a vector instruction: one more dimension, or the instruction. */
  lemma NextOfVector(e: Event, s: seq<Event>, pos: nat -> nat, dims: seq<Dim>, k: nat, id: nat, rest: seq<Event>)
    requires k <= |dims| && [e] + s == Enters(pos, dims[k..]) + ([Exec(id)] + rest)
    ensures k < |dims| ==> e == EnterOf(pos, dims[k]) && s == Enters(pos, dims[k + 1..]) + ([Exec(id)] + rest)
    ensures k == |dims| ==> e == Exec(id) && s == rest
  {
    if k < |dims| {
      EntersStep(pos, dims, k);
      HeadOf(e, s, EnterOf(pos, dims[k]), Enters(pos, dims[k + 1..]), [Exec(id)] + rest);
    } else {
      assert dims[k..] == [];
      assert [] + ([Exec(id)] + rest) == ([Exec(id)] + []) + rest;
      HeadOf(e, s, Exec(id), [], rest);
    }
  }

  lemma OfKindStep(dims: seq<Dim>, k: nat, kind: DimKind)
    requires k < |dims|
    ensures OfKind(dims[..k + 1], kind) == OfKind(dims[..k], kind) + if dims[k].kind == kind then [dims[k]] else []
  {
    assert dims[..k + 1][..k] == dims[..k];
  }

  /** Reads the dimensions of a vector instruction, up to the instruction itself. */
  method EnterVector(events: EventStream, ghost pos: nat -> nat, ghost dims: seq<Dim>, ghost id: nat, ghost rest: seq<Event>)
    returns (outer: seq<Dim>, inner: seq<Dim>, inst: nat)
    requires forall k :: 0 <= k < |dims| ==> dims[k].kind.IsVector()
    requires events.remaining == Enters(pos, dims) + [Exec(id)] + rest
    modifies events
    ensures outer == OfKind(dims, OuterVector) && inner == OfKind(dims, InnerVector) && inst == id
    ensures events.remaining == rest
  {
    outer, inner := [], [];
    ghost var k := 0;
    assert dims[..0] == [] && dims[0..] == dims;
    var e := events.Next();
    while e.Some? && e.value.Enter? && e.value.entry.SeqDim?
      invariant 0 <= k <= |dims|
      invariant outer == OfKind(dims[..k], OuterVector) && inner == OfKind(dims[..k], InnerVector)
      invariant e.Some? && [e.value] + events.remaining == Enters(pos, dims[k..]) + ([Exec(id)] + rest)
      decreases |dims| - k
    {
      NextOfVector(e.value, events.remaining, pos, dims, k, id, rest);
      OfKindStep(dims, k, OuterVector);
      OfKindStep(dims, k, InnerVector);
      if e.value.entry.dim.kind.OuterVector? {
        outer := outer + [e.value.entry.dim];
      } else {
        inner := inner + [e.value.entry.dim];
      }
      k := k + 1;
      e := events.Next();
    }
    NextOfVector(e.value, events.remaining, pos, dims, k, id, rest);
    assert dims[..k] == dims;
    inst := e.value.inst;
  }

  /** Rebuilds a vector instruction, whose outermost dimension was read already. */
  method VectorInstFromEvents(
      dim: Dim, events: EventStream, ghost pos: nat -> nat, ghost dims: seq<Dim>, ghost id: nat, ghost rest: seq<Event>)
    returns (inst: Graph)
    requires dims != [] && dim == dims[0] && forall k :: 0 <= k < |dims| ==> dims[k].kind.IsVector()
    requires events.remaining == Enters(pos, dims[1..]) + [Exec(id)] + (Exits(dims) + rest)
    modifies events
    ensures inst == Instruction(OfKind(dims, OuterVector), OfKind(dims, InnerVector), id)
    ensures events.remaining == rest
  {
    var outer, inner, i := EnterVector(events, pos, dims[1..], id, Exits(dims) + rest);
    OfKindHead(dims, OuterVector);
    OfKindHead(dims, InnerVector);
    if dim.kind.OuterVector? {
      outer := [dim] + outer;
    } else {
      inner := [dim] + inner;
    }
    VectorLevels(dims);
    LeaveVector(events, |outer| + |inner|, dims, rest);
    inst := Instruction(outer, inner, i);
  }

  /** Reads one exit per dimension of a vector instruction. */
  method LeaveVector(events: EventStream, n: nat, ghost dims: seq<Dim>, ghost rest: seq<Event>)
    requires n == |dims| && forall k :: 0 <= k < |dims| ==> dims[k].kind.IsVector()
    requires events.remaining == Exits(dims) + rest
    modifies events
    ensures events.remaining == rest
  {
    ExitsAre(dims);
    for j := 0 to n
      invariant events.remaining == Exits(dims)[j..] + rest
    {
      assert Exits(dims)[j..][1..] == Exits(dims)[j + 1..];
      var exit := events.Next();
      assert exit.Some? && exit.value.Exit? && !exit.value.thread;
    }
    assert Exits(dims)[n..] + rest == rest;
  }

  lemma {:induction false} OfKindHead(dims: seq<Dim>, kind: DimKind)
    requires dims != []
    ensures OfKind(dims, kind) == (if dims[0].kind == kind then [dims[0]] else []) + OfKind(dims[1..], kind)
  {
    if |dims| > 1 {
      OfKindHead(dims[..|dims| - 1], kind);
      assert dims[..|dims| - 1][1..] == dims[1..][..|dims| - 2];
    }
  }
}
