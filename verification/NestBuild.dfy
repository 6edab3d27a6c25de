/** From instructions and dimensions to the control flow graph of the nest the decisions describe. */
module NestBuild {
  import opened Wrappers
  import opened Sequences
  import opened Nests
  import opened NestOrder
  import opened NestParser
  import opened NestRebuild
  import opened NestEvents
  import EmptyThreads
  import NestRoles

  // ----- The events of a nest, in any order -----

  function ExecOf(inst: nat): Event {
    Exec(inst)
  }

  function EnterAt(pos: nat -> nat): Dim -> Event {
    (d: Dim) => EnterOf(pos, d)
  }

  function EnterSeq(d: Dim): Event {
    Enter(d.id, SeqDim(d))
  }

  /** One execution per instruction, one entry and one exit per dimension. */
  function Bag(pos: nat -> nat, insts: seq<nat>, dims: seq<Dim>): multiset<Event> {
    multiset(Map(ExecOf, insts)) + multiset(Map(EnterAt(pos), dims)) + multiset(Map(ExitOf, dims))
  }

  lemma BagConcat(pos: nat -> nat, insts: seq<nat>, dims: seq<Dim>, insts': seq<nat>, dims': seq<Dim>)
    ensures Bag(pos, insts + insts', dims + dims') == Bag(pos, insts, dims) + Bag(pos, insts', dims')
  {
    MapConcat(ExecOf, insts, insts');
    MapConcat(EnterAt(pos), dims, dims');
    MapConcat(ExitOf, dims, dims');
  }

  function InstsOf(n: Nest): seq<nat> {
    match n
    case Inst(id) => [id]
    case Vector(_, id) => [id]
    case Sequential(_, body) => InstsOfAll(body)
    case Threads(_, body) => InstsOfAll(body)
  }

  function InstsOfAll(body: seq<Nest>): seq<nat> {
    if body == [] then [] else InstsOf(body[0]) + InstsOfAll(body[1..])
  }

  function DimsOf(n: Nest): seq<Dim> {
    match n
    case Inst(_) => []
    case Vector(dims, _) => dims
    case Sequential(dim, body) => [dim] + DimsOfAll(body)
    case Threads(dims, body) => dims + DimsOfAll(body)
  }

  function DimsOfAll(body: seq<Nest>): seq<Dim> {
    if body == [] then [] else DimsOf(body[0]) + DimsOfAll(body[1..])
  }

  lemma OneDim(pos: nat -> nat, d: Dim)
    ensures Bag(pos, [], [d]) == multiset{EnterOf(pos, d), ExitOf(d)}
  {
  }

  lemma {:induction false} BracketsBag(pos: nat -> nat, dims: seq<Dim>, inner: seq<Event>)
    ensures multiset(Brackets(pos, dims, inner)) == multiset(inner) + Bag(pos, [], dims)
  {
    if dims != [] {
      BracketsBag(pos, dims[1..], inner);
      Around(EnterOf(pos, dims[0]), Brackets(pos, dims[1..], inner), ExitOf(dims[0]));
      OneDim(pos, dims[0]);
      BagConcat(pos, [], [dims[0]], [], dims[1..]);
      assert dims == [dims[0]] + dims[1..];
    }
  }

  lemma Around(enter: Event, inner: seq<Event>, exit: Event)
    ensures multiset([enter] + inner + [exit]) == multiset(inner) + multiset{enter, exit}
  {
  }

  lemma NestBag(pos: nat -> nat, dims: seq<Dim>, inner: seq<Event>, insts: seq<nat>, innerDims: seq<Dim>)
    requires multiset(inner) == Bag(pos, insts, innerDims)
    ensures multiset(Brackets(pos, dims, inner)) == Bag(pos, insts, dims + innerDims)
  {
    BracketsBag(pos, dims, inner);
    BagConcat(pos, [], dims, insts, innerDims);
    assert [] + insts == insts;
  }

  lemma {:induction false} WalkBag(pos: nat -> nat, n: Nest)
    ensures multiset(Events(pos, n)) == Bag(pos, InstsOf(n), DimsOf(n))
  {
    match n
    case Inst(id) =>
    case Vector(dims, id) =>
      NestBag(pos, dims, [Exec(id)], [id], []);
      assert dims + [] == dims;
    case Sequential(dim, body) =>
      WalkAllBag(pos, body);
      NestBag(pos, [dim], EventsAll(pos, body), InstsOfAll(body), DimsOfAll(body));
    case Threads(dims, body) =>
      WalkAllBag(pos, body);
      NestBag(pos, dims, EventsAll(pos, body), InstsOfAll(body), DimsOfAll(body));
  }

  lemma {:induction false} WalkAllBag(pos: nat -> nat, body: seq<Nest>)
    ensures multiset(EventsAll(pos, body)) == Bag(pos, InstsOfAll(body), DimsOfAll(body))
  {
    if body != [] {
      WalkBag(pos, body[0]);
      WalkAllBag(pos, body[1..]);
      BagConcat(pos, InstsOf(body[0]), DimsOf(body[0]), InstsOfAll(body[1..]), DimsOfAll(body[1..]));
    }
  }

  // ----- The generated events -----

  function NotBlock(dims: seq<Dim>): seq<Dim> {
    if dims == [] then []
    else if dims[|dims| - 1].kind.Block? then NotBlock(dims[..|dims| - 1])
    else NotBlock(dims[..|dims| - 1]) + [dims[|dims| - 1]]
  }

  function Sequentials(dims: seq<Dim>): (r: seq<Dim>)
    ensures forall k :: 0 <= k < |r| ==> !r[k].kind.Thread?
  {
    if dims == [] then []
    else if dims[|dims| - 1].kind.Block? || dims[|dims| - 1].kind.Thread? then Sequentials(dims[..|dims| - 1])
    else Sequentials(dims[..|dims| - 1]) + [dims[|dims| - 1]]
  }

  lemma {:induction false} NotBlockSplits(dims: seq<Dim>)
    ensures multiset(NotBlock(dims)) == multiset(Sequentials(dims) + OfKind(dims, Thread))
  {
    if dims != [] {
      NotBlockSplits(dims[..|dims| - 1]);
    }
  }

  /** The events known before thread dimensions have a position. */
  function SplitBag(insts: seq<nat>, dims: seq<Dim>): multiset<Event> {
    multiset(Map(ExecOf, insts)) + multiset(Map(ExitOf, NotBlock(dims))) + multiset(Map(EnterSeq, Sequentials(dims)))
  }

  lemma SplitStep(insts: seq<nat>, dims: seq<Dim>, k: nat)
    requires k < |dims|
    ensures
      SplitBag(insts, dims[..k + 1]) ==
      SplitBag(insts, dims[..k]) +
      match dims[k].kind
      case Block => multiset{}
      case Thread => multiset{ExitOf(dims[k])}
      case _ => multiset{ExitOf(dims[k]), EnterSeq(dims[k])}
  {
    assert dims[..k + 1][..k] == dims[..k];
    MapConcat(ExitOf, NotBlock(dims[..k]), [dims[k]]);
    MapConcat(EnterSeq, Sequentials(dims[..k]), [dims[k]]);
  }

  /** The events of sequential dimensions, the exits of thread dimensions, and the dimensions by kind. */
  method SplitDims(insts: seq<nat>, dims: seq<Dim>) returns (blocks: seq<Dim>, threads: seq<Dim>, events: seq<Event>)
    ensures blocks == OfKind(dims, Block) && threads == OfKind(dims, Thread)
    ensures multiset(events) == SplitBag(insts, dims)
  {
    blocks, threads, events := [], [], Map(ExecOf, insts);
    for k := 0 to |dims|
      invariant blocks == OfKind(dims[..k], Block) && threads == OfKind(dims[..k], Thread)
      invariant multiset(events) == SplitBag(insts, dims[..k])
    {
      OfKindStep(dims, k, Block);
      OfKindStep(dims, k, Thread);
      SplitStep(insts, dims, k);
      match dims[k].kind {
        case Block => blocks := blocks + [dims[k]];
        case Thread =>
          events := events + [Exit(dims[k].id, true)];
          threads := threads + [dims[k]];
        case _ => events := events + [Exit(dims[k].id, false), Enter(dims[k].id, SeqDim(dims[k]))];
      }
    }
    assert dims[..|dims|] == dims;
  }

  /** The dimensions of a group are entered at the position of the group, with the levels they own. */
  method GroupEnters(groups: seq<seq<Dim>>, g: nat, ghost rank: nat -> int) returns (events: seq<Event>)
    requires Grouped(rank, groups) && g < |groups| && forall k :: 0 <= k < |groups[g]| ==> groups[g][k].kind.Thread?
    ensures events == Map(EnterAt(Positions(rank, groups)), groups[g])
  {
    events := [];
    for k := 0 to |groups[g]|
      invariant events == Map(EnterAt(Positions(rank, groups)), groups[g][..k])
    {
      PositionIs(rank, groups, g, k);
      assert groups[g][..k + 1][..k] == groups[g][..k];
      events := events + [Enter(groups[g][k].id, ThreadDim(g, groups[g][k].levels))];
    }
    assert groups[g][..|groups[g]|] == groups[g];
  }

  method ThreadEnters(groups: seq<seq<Dim>>, ghost rank: nat -> int) returns (events: seq<Event>)
    requires Grouped(rank, groups) && forall g, k :: 0 <= g < |groups| && 0 <= k < |groups[g]| ==> groups[g][k].kind.Thread?
    ensures events == Map(EnterAt(Positions(rank, groups)), Flatten(groups))
  {
    events := [];
    for g := 0 to |groups|
      invariant events == Map(EnterAt(Positions(rank, groups)), Flatten(groups[..g]))
    {
      var more := GroupEnters(groups, g, rank);
      assert groups[..g + 1][..g] == groups[..g];
      MapConcat(EnterAt(Positions(rank, groups)), Flatten(groups[..g]), groups[g]);
      events := events + more;
    }
    assert groups[..|groups|] == groups;
  }

  // ----- All the events -----

  /** With thread dimensions entered as well, the events are those of any nest of these instructions and dimensions. */
  lemma AllEvents(pos: nat -> nat, insts: seq<nat>, dims: seq<Dim>, threads: seq<Dim>)
    requires multiset(threads) == multiset(OfKind(dims, Thread))
    ensures SplitBag(insts, dims) + multiset(Map(EnterAt(pos), threads)) == Bag(pos, insts, NotBlock(dims))
  {
    var seqs := Sequentials(dims);
    NotBlockSplits(dims);
    assert multiset(seqs + OfKind(dims, Thread)) == multiset(seqs + threads);
    MapPermutation(EnterAt(pos), NotBlock(dims), seqs + threads);
    MapConcat(EnterAt(pos), seqs, threads);
    assert Map(EnterAt(pos), seqs) == Map(EnterSeq, seqs);
  }

  /** Lists the events, the block dimensions from the outermost one, and the thread dimensions by axis. */
  method GenEvents(
      order: OrderTable, mapping: MappingTable, insts: seq<nat>, dims: seq<Dim>, ghost rank: nat -> int, ghost blockNest: seq<Dim>)
    returns (blocks: seq<Dim>, groups: seq<seq<Dim>>, events: seq<Event>)
    requires Ranks(mapping, rank, OfKind(dims, Thread))
    requires OutermostFirst(order, blockNest) && multiset(blockNest) == multiset(OfKind(dims, Block))
    ensures blocks == blockNest
    ensures Grouped(rank, groups) && multiset(Flatten(groups)) == multiset(OfKind(dims, Thread))
    ensures multiset(events) == Bag(Positions(rank, groups), insts, NotBlock(dims))
  {
    var threads;
    blocks, threads, events := SplitDims(insts, dims);
    blocks := SortBlocks(order, blocks, blockNest);
    groups := GroupThreads(mapping, threads, rank);
    GroupsAreThreads(dims, groups);
    var enters := ThreadEnters(groups, rank);
    AllEvents(Positions(rank, groups), insts, dims, Flatten(groups));
    events := events + enters;
  }

  lemma {:induction false} KindOfKind(dims: seq<Dim>, kind: DimKind)
    ensures forall d :: d in OfKind(dims, kind) ==> d.kind == kind
  {
    if dims != [] {
      KindOfKind(dims[..|dims| - 1], kind);
    }
  }

  lemma GroupsAreThreads(dims: seq<Dim>, groups: seq<seq<Dim>>)
    requires multiset(Flatten(groups)) == multiset(OfKind(dims, Thread))
    ensures forall g, k :: 0 <= g < |groups| && 0 <= k < |groups[g]| ==> groups[g][k].kind.Thread?
  {
    forall g, k | 0 <= g < |groups| && 0 <= k < |groups[g]| ensures groups[g][k].kind.Thread? {
      InFlatten(groups, groups[g][k]);
      assert groups[g][k] in multiset(Flatten(groups));
      KindOfKind(dims, Thread);
    }
  }

  // ----- The control flow graph -----

  /** Nested thread dimensions lie on distinct axes, and never inside other threads. */
  ghost predicate Shaped(rank: nat -> int, inThreads: bool, nest: Nest)
    decreases nest
  {
    match nest
    case Inst(_) => true
    case Vector(dims, _) => dims != [] && forall k :: 0 <= k < |dims| ==> dims[k].kind.OuterVector? || dims[k].kind.InnerVector?
    case Sequential(dim, body) => (dim.kind.Loop? || dim.kind.Unroll?) && ShapedAll(rank, inThreads, body)
    case Threads(dims, body) =>
      && !inThreads && dims != [] && (forall k :: 0 <= k < |dims| ==> dims[k].kind.Thread?)
      && (forall i, j :: 0 <= i < j < |dims| ==> rank(dims[i].id) != rank(dims[j].id))
      && ShapedAll(rank, true, body)
  }

  ghost predicate ShapedAll(rank: nat -> int, inThreads: bool, body: seq<Nest>)
    decreases body
  {
    forall k :: 0 <= k < |body| ==> Shaped(rank, inThreads, body[k])
  }

  /** The thread dimensions of `dims` are in the groups. */
  ghost predicate Placed(groups: seq<seq<Dim>>, dims: seq<Dim>) {
    forall d :: d in dims && d.kind.Thread? ==> d in Flatten(groups)
  }

  lemma PositionOf(rank: nat -> int, groups: seq<seq<Dim>>, d: Dim)
    requires Grouped(rank, groups) && d in Flatten(groups)
    ensures var p := Positions(rank, groups)(d.id); p < |groups| && rank(groups[p][0].id) == rank(d.id)
  {
    InFlatten(groups, d);
    var g :| 0 <= g < |groups| && d in groups[g];
    var k :| 0 <= k < |groups[g]| && groups[g][k] == d;
    PositionIs(rank, groups, g, k);
  }

  lemma {:induction false} ShapedIsWellFormed(rank: nat -> int, groups: seq<seq<Dim>>, inThreads: bool, nest: Nest)
    requires Grouped(rank, groups) && Shaped(rank, inThreads, nest) && Placed(groups, DimsOf(nest))
    ensures WellFormed(Positions(rank, groups), if inThreads then 0 else |groups|, nest)
    decreases nest
  {
    var pos := Positions(rank, groups);
    match nest
    case Inst(_) =>
    case Vector(_, _) =>
    case Sequential(_, body) => ShapedAllIsWellFormed(rank, groups, inThreads, body);
    case Threads(dims, body) =>
      forall i | 0 <= i < |dims|
        ensures pos(dims[i].id) < |groups| && rank(groups[pos(dims[i].id)][0].id) == rank(dims[i].id)
      {
        assert dims[i] in DimsOf(nest);
        PositionOf(rank, groups, dims[i]);
      }
      ShapedAllIsWellFormed(rank, groups, true, body);
  }

  lemma {:induction false} ShapedAllIsWellFormed(rank: nat -> int, groups: seq<seq<Dim>>, inThreads: bool, body: seq<Nest>)
    requires Grouped(rank, groups) && ShapedAll(rank, inThreads, body) && Placed(groups, DimsOfAll(body))
    ensures WellFormedAll(Positions(rank, groups), if inThreads then 0 else |groups|, body)
    decreases body
  {
    if body != [] {
      ShapedIsWellFormed(rank, groups, inThreads, body[0]);
      ShapedAllIsWellFormed(rank, groups, inThreads, body[1..]);
    }
  }

  /** The nest is made of the given instructions and dimensions. */
  ghost predicate MadeOf(nest: seq<Nest>, insts: seq<nat>, dims: seq<Dim>) {
    multiset(InstsOfAll(nest)) == multiset(insts) && multiset(DimsOfAll(nest)) == multiset(NotBlock(dims))
  }

  lemma {:induction false} NotBlockThreads(dims: seq<Dim>)
    ensures forall d :: d in NotBlock(dims) && d.kind.Thread? ==> d in OfKind(dims, Thread)
  {
    if dims != [] {
      NotBlockThreads(dims[..|dims| - 1]);
    }
  }

  lemma AllPlaced(groups: seq<seq<Dim>>, nest: seq<Nest>, insts: seq<nat>, dims: seq<Dim>)
    requires MadeOf(nest, insts, dims) && multiset(Flatten(groups)) == multiset(OfKind(dims, Thread))
    ensures Placed(groups, DimsOfAll(nest))
  {
    NotBlockThreads(dims);
    forall d | d in DimsOfAll(nest) && d.kind.Thread? ensures d in Flatten(groups) {
      assert d in multiset(DimsOfAll(nest));
      assert d in multiset(OfKind(dims, Thread));
    }
  }

  /** Permuting instructions and dimensions permutes the events. */
  lemma SameBag(pos: nat -> nat, nest: seq<Nest>, insts: seq<nat>, dims: seq<Dim>)
    requires MadeOf(nest, insts, dims)
    ensures multiset(EventsAll(pos, nest)) == Bag(pos, insts, NotBlock(dims))
  {
    WalkAllBag(pos, nest);
    MapPermutation(ExecOf, InstsOfAll(nest), insts);
    MapPermutation(EnterAt(pos), DimsOfAll(nest), NotBlock(dims));
    MapPermutation(ExitOf, DimsOfAll(nest), NotBlock(dims));
  }

  /** The order of the events does not matter: sorting any permutation of them gives the walk through the nest. */
  lemma SortedIsWalk(order: OrderTable, pos: nat -> nat, nest: seq<Nest>, insts: seq<nat>, dims: seq<Dim>, sorted: seq<Event>)
    requires MadeOf(nest, insts, dims) && InducedAll(order, nest)
    requires Sorted(order, sorted) && multiset(sorted) == Bag(pos, insts, NotBlock(dims))
    ensures sorted == EventsAll(pos, nest)
  {
    SameBag(pos, nest, insts, dims);
    WalkAllIncreasing(order, pos, nest);
    SortedIsUnique(order, sorted, EventsAll(pos, nest));
  }

  /** The first event of the walk is the only one that no event precedes. */
  lemma LeastIsFirst(order: OrderTable, events: seq<Event>, walk: seq<Event>, k: nat)
    requires Increasing(order, walk) && multiset(events) == multiset(walk) && k < |events|
    ensures (forall j :: 0 <= j < |events| ==> Cmp(order, events[k], events[j]) != Some(Greater)) <==> events[k] == walk[0]
  {
    assert |events| == |multiset(events)| == |multiset(walk)| == |walk|;
    assert events[k] in multiset(walk) && walk[0] in multiset(events);
    var m := Occurrence(walk, events[k]);
    var first := Occurrence(events, walk[0]);
    if m > 0 {
      assert Ascends(order, walk[0], walk[m]);
    } else {
      forall j | 0 <= j < |events| ensures Cmp(order, events[k], events[j]) != Some(Greater) {
        assert events[j] in multiset(walk);
        var i := Occurrence(walk, events[j]);
        assert i > 0 ==> Ascends(order, walk[0], walk[i]);
      }
    }
  }

  /** A sort of the events, in place of the one of the standard library. */
  method SortBy(order: OrderTable, events: seq<Event>, ghost walk: seq<Event>) returns (sorted: seq<Event>)
    requires Increasing(order, walk) && multiset(events) == multiset(walk)
    ensures sorted == walk
    decreases |events|
  {
    assert |events| == |multiset(events)| == |multiset(walk)| == |walk|;
    if events == [] {
      return [];
    }
    assert walk[0] in multiset(events);
    ghost var first := Occurrence(events, walk[0]);
    LeastIsFirst(order, events, walk, first);
    var k :| 0 <= k < |events| && forall j :: 0 <= j < |events| ==> Cmp(order, events[k], events[j]) != Some(Greater);
    LeastIsFirst(order, events, walk, k);
    assert walk == [walk[0]] + walk[1..];
    WithoutCounts(events, k);
    assert multiset(Without(events, k)) == multiset(events) - multiset{walk[0]} == multiset(walk[1..]);
    TailIncreasing(order, walk);
    var rest := SortBy(order, Without(events, k), walk[1..]);
    sorted := [events[k]] + rest;
  }

  /**
   When the decisions describe a nest of the instructions and dimensions, the graph built from
   them in any order is this nest, with empty sets of threads around the other instructions.
   */
  method Build(
      order: OrderTable, mapping: MappingTable, insts: seq<nat>, dims: seq<Dim>,
      ghost rank: nat -> int, ghost blockNest: seq<Dim>, ghost nest: seq<Nest>)
    returns (blocks: seq<Dim>, groups: seq<seq<Dim>>, graph: Graph)
    requires Ranks(mapping, rank, OfKind(dims, Thread))
    requires OutermostFirst(order, blockNest) && multiset(blockNest) == multiset(OfKind(dims, Block))
    requires MadeOf(nest, insts, dims) && InducedAll(order, nest) && ShapedAll(rank, false, nest)
    ensures blocks == blockNest && Grouped(rank, groups)
    ensures
      var pos := Positions(rank, groups);
      WellFormedAll(pos, |groups|, nest) && graph == Root(EmptyThreads.Fill(|groups|, GraphOfAll(pos, |groups|, nest)))
    ensures NestRoles.GraphPlaces(graph, {}) == NestRoles.PlacesAll(Positions(rank, groups), nest, {})
    ensures EmptyThreads.ListsAll(|groups|, graph) && EmptyThreads.GroupedIn(graph)
  {
    var events;
    blocks, groups, events := GenEvents(order, mapping, insts, dims, rank, blockNest);
    ghost var pos := Positions(rank, groups);
    SameBag(pos, nest, insts, dims);
    WalkAllIncreasing(order, pos, nest);
    var sorted := SortBy(order, events, EventsAll(pos, nest));
    AllPlaced(groups, nest, insts, dims);
    ShapedAllIsWellFormed(rank, groups, false, nest);
    graph := FromEvents(sorted, |groups|, pos, nest);
    NestRoles.GraphSaysWhatNestSays(pos, |groups|, nest);
    AddedNodesGrouped(pos, |groups|, nest);
  }

  method FromEvents(sorted: seq<Event>, n: nat, ghost pos: nat -> nat, ghost nest: seq<Nest>) returns (graph: Graph)
    requires WellFormedAll(pos, n, nest) && sorted == EventsAll(pos, nest)
    ensures graph == Root(EmptyThreads.Fill(n, GraphOfAll(pos, n, nest)))
  {
    var stream := new EventStream(sorted);
    assert EventsAll(pos, nest) + ([] + []) == EventsAll(pos, nest);
    var body := BodyFromEvents(stream, n, pos, nest, [], []);
    var end := stream.Next();
    assert end == None;
    var filled := EmptyThreads.AddEmptyThreads(body, n);
    graph := Root(filled);
  }

  // ----- What the graph contains -----

  lemma {:induction false} InstsOfConcat(a: seq<Nest>, b: seq<Nest>)
    ensures InstsOfAll(a + b) == InstsOfAll(a) + InstsOfAll(b)
  {
    if a == [] {
      assert a + b == b;
    } else {
      assert (a + b)[1..] == a[1..] + b;
      InstsOfConcat(a[1..], b);
    }
  }

  lemma {:induction false} GraphInsts(pos: nat -> nat, n: nat, body: seq<Nest>)
    requires WellFormedAll(pos, n, body)
    ensures EmptyThreads.InstsAll(GraphOfAll(pos, n, body)) == InstsOfAll(body)
    decreases body, 1, |body|
  {
    if body != [] {
      var m := |body| - 1;
      GraphInsts(pos, n, body[..m]);
      GraphInst(pos, n, body[m]);
      EmptyThreads.InstsConcat(GraphOfAll(pos, n, body[..m]), [GraphOf(pos, n, body[m])]);
      assert body == body[..m] + [body[m]] && [body[m]][1..] == [];
      InstsOfConcat(body[..m], [body[m]]);
    }
  }

  lemma {:induction false} GraphInst(pos: nat -> nat, n: nat, nest: Nest)
    requires WellFormed(pos, n, nest)
    ensures EmptyThreads.InstsAll([GraphOf(pos, n, nest)]) == InstsOf(nest)
    decreases nest, 0
  {
    var g := GraphOf(pos, n, nest);
    assert [g][1..] == [] && EmptyThreads.Insts(g) + [] == EmptyThreads.Insts(g);
    match nest
    case Sequential(_, body) => GraphInsts(pos, n, body);
    case Threads(_, body) => GraphInsts(pos, 0, body);
    case _ =>
  }

  /** Under at most one set of threads, and none inside threads; no set of threads is empty. */
  ghost predicate Flat(body: seq<Graph>, depth: nat, most: nat) {
    && (forall k :: 0 <= k < |EmptyThreads.DepthsAll(body, depth)| ==> EmptyThreads.DepthsAll(body, depth)[k] <= most)
    && (forall k :: 0 <= k < |body| ==> EmptyThreads.NoEmptyThreads(body[k]))
  }

  lemma FlatConcat(a: seq<Graph>, b: seq<Graph>, depth: nat, most: nat)
    requires Flat(a, depth, most) && Flat(b, depth, most)
    ensures Flat(a + b, depth, most)
  {
    EmptyThreads.DepthsConcat(a, b, depth);
  }

  lemma {:induction false} GraphFlat(pos: nat -> nat, n: nat, body: seq<Nest>, depth: nat, most: nat)
    requires WellFormedAll(pos, n, body) && depth + (if n == 0 then 0 else 1) <= most
    ensures Flat(GraphOfAll(pos, n, body), depth, most)
    decreases body, 1, |body|
  {
    if body != [] {
      var m := |body| - 1;
      GraphFlat(pos, n, body[..m], depth, most);
      OneFlat(pos, n, body[m], depth, most);
      FlatConcat(GraphOfAll(pos, n, body[..m]), [GraphOf(pos, n, body[m])], depth, most);
    }
  }

  lemma {:induction false} OneFlat(pos: nat -> nat, n: nat, nest: Nest, depth: nat, most: nat)
    requires WellFormed(pos, n, nest) && depth + (if n == 0 then 0 else 1) <= most
    ensures Flat([GraphOf(pos, n, nest)], depth, most)
    decreases nest, 0
  {
    var g := GraphOf(pos, n, nest);
    assert EmptyThreads.DepthsAll([g], depth) == EmptyThreads.Depths(g, depth) by {
      assert [g][1..] == [];
    }
    match nest
    case Sequential(dim, body) =>
      GraphFlat(pos, n, body, depth, most);
      assert g == Graph.Loop(dim, GraphOfAll(pos, n, body)) && Flat(g.body, depth, most);
      assert EmptyThreads.Depths(g, depth) == EmptyThreads.DepthsAll(g.body, depth);
    case Threads(dims, body) =>
      GraphFlat(pos, 0, body, depth + 1, most);
      EmptyThreads.UnderThreads(g, depth);
      SomeActive(pos, dims, n);
    case _ =>
  }

  lemma SomeActive(pos: nat -> nat, dims: seq<Dim>, n: nat)
    requires dims != [] && forall j :: 0 <= j < |dims| ==> pos(dims[j].id) < n
    ensures Active(pos, dims, n)[pos(dims[|dims| - 1].id)].Some?
  {
  }

  /** No two sets of threads without active threads follow each other in the graph. */
  lemma AddedNodesGrouped(pos: nat -> nat, n: nat, nest: seq<Nest>)
    requires WellFormedAll(pos, n, nest)
    ensures EmptyThreads.GroupedIn(Root(EmptyThreads.Fill(n, GraphOfAll(pos, n, nest))))
  {
    GraphFlat(pos, n, nest, 0, 1);
    EmptyThreads.FillGroups(n, GraphOfAll(pos, n, nest));
  }

  /**
   The graph holds the instructions of the nest in order, each under exactly one set of active
   threads, and is the nest itself once the added sets are removed.
   */
  lemma NestCovered(pos: nat -> nat, n: nat, nest: seq<Nest>)
    requires WellFormedAll(pos, n, nest)
    ensures
      var nested := GraphOfAll(pos, n, nest);
      var body := EmptyThreads.Fill(n, nested);
      && EmptyThreads.InstsAll(body) == InstsOfAll(nest)
      && (forall k :: 0 <= k < |EmptyThreads.DepthsAll(body, 0)| ==> EmptyThreads.DepthsAll(body, 0)[k] == 1)
      && EmptyThreads.EraseAll(body) == nested
  {
    var nested := GraphOfAll(pos, n, nest);
    GraphInsts(pos, n, nest);
    GraphFlat(pos, n, nest, 0, 1);
    EmptyThreads.FillKeepsInsts(n, nested);
    EmptyThreads.FillCoversOnce(n, nested);
    EmptyThreads.FillErases(n, nested);
  }
}
