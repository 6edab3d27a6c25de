/**
 What the control flow graph says of each instruction: the loops around it, the thread dimensions
 at their positions, the levels computed on the way and its vector dimensions.
 */
module NestRoles {
  import opened Wrappers
  import opened Sequences
  import opened Nests
  import opened NestParser
  import EmptyThreads

  datatype Role =
    | InLoop(dim: Dim)
    | OnThread(pos: nat, id: nat)
    | Computes(level: nat)
    | OnVector(dim: Dim)

  /** An instruction and the roles of what encloses it. */
  type Place = (nat, set<Role>)

  function ThreadRoles(pos: nat -> nat, dims: seq<Dim>): set<Role> {
    (set d | d in dims :: OnThread(pos(d.id), d.id)) + (set d, l | d in dims && l in d.levels :: Computes(l))
  }

  function VectorRoles(dims: seq<Dim>): set<Role> {
    set d | d in dims :: OnVector(d)
  }

  // ----- In the nest -----

  function Places(pos: nat -> nat, n: Nest, around: set<Role>): seq<Place> {
    match n
    case Inst(id) => [(id, around)]
    case Vector(dims, id) => [(id, around + VectorRoles(dims))]
    case Sequential(dim, body) => PlacesAll(pos, body, around + {InLoop(dim)})
    case Threads(dims, body) => PlacesAll(pos, body, around + ThreadRoles(pos, dims))
  }

  function PlacesAll(pos: nat -> nat, body: seq<Nest>, around: set<Role>): seq<Place> {
    if body == [] then [] else PlacesAll(pos, body[..|body| - 1], around) + Places(pos, body[|body| - 1], around)
  }

  // ----- In the graph -----

  function ActiveRoles(active: seq<Option<nat>>): set<Role> {
    set k | 0 <= k < |active| && active[k].Some? :: OnThread(k, active[k].value)
  }

  function LevelRoles(levels: seq<nat>): set<Role> {
    set l | l in levels :: Computes(l)
  }

  predicate AllOf(dims: seq<Dim>, kind: DimKind) {
    forall d :: d in dims ==> d.kind == kind
  }

  function GraphPlaces(g: Graph, around: set<Role>): seq<Place> {
    match g
    case Root(body) => GraphPlacesAll(body, around)
    case Loop(dim, body) => GraphPlacesAll(body, around + {InLoop(dim)})
    case Threads(active, levels, body) => GraphPlacesAll(body, around + ActiveRoles(active) + LevelRoles(levels))
    case Instruction(outer, inner, inst) => [(inst, around + VectorRoles(outer) + VectorRoles(inner))]
  }

  function GraphPlacesAll(body: seq<Graph>, around: set<Role>): seq<Place> {
    if body == [] then [] else GraphPlacesAll(body[..|body| - 1], around) + GraphPlaces(body[|body| - 1], around)
  }

  /** A vector instruction keeps its dimensions by vectorisation level. */
  predicate VectorsByLevel(g: Graph) {
    match g
    case Root(body) => forall k :: 0 <= k < |body| ==> VectorsByLevel(body[k])
    case Loop(_, body) => forall k :: 0 <= k < |body| ==> VectorsByLevel(body[k])
    case Threads(_, _, body) => forall k :: 0 <= k < |body| ==> VectorsByLevel(body[k])
    case Instruction(outer, inner, _) => AllOf(outer, OuterVector) && AllOf(inner, InnerVector)
  }

  // ----- The graph of a nest -----

  lemma {:induction false} InOfKind(dims: seq<Dim>, kind: DimKind, d: Dim)
    ensures d in OfKind(dims, kind) <==> d in dims && d.kind == kind
  {
    if dims != [] {
      InOfKind(dims[..|dims| - 1], kind, d);
      assert dims == dims[..|dims| - 1] + [dims[|dims| - 1]];
    }
  }

  lemma {:induction false} InLevelsOf(dims: seq<Dim>, l: nat)
    ensures l in LevelsOf(dims) <==> exists d :: d in dims && l in d.levels
  {
    if dims != [] {
      var last := dims[|dims| - 1];
      InLevelsOf(dims[..|dims| - 1], l);
      assert dims == dims[..|dims| - 1] + [last];
    }
  }

  /** Position `k` is active exactly with the dimension placed there. */
  lemma {:induction false} ActiveAt(pos: nat -> nat, dims: seq<Dim>, n: nat, k: nat, id: nat)
    requires forall j :: 0 <= j < |dims| ==> pos(dims[j].id) < n
    requires forall i, j :: 0 <= i < j < |dims| ==> pos(dims[i].id) != pos(dims[j].id)
    requires k < n
    ensures Active(pos, dims, n)[k] == Some(id) <==> exists j :: 0 <= j < |dims| && dims[j].id == id && pos(id) == k
  {
    if dims != [] {
      var m := |dims| - 1;
      ActiveAt(pos, dims[..m], n, k, id);
      assert forall j :: 0 <= j < m ==> dims[..m][j] == dims[j];
    }
  }

  lemma ThreadRolesAre(pos: nat -> nat, dims: seq<Dim>, n: nat)
    requires forall j :: 0 <= j < |dims| ==> pos(dims[j].id) < n
    requires forall i, j :: 0 <= i < j < |dims| ==> pos(dims[i].id) != pos(dims[j].id)
    ensures ActiveRoles(Active(pos, dims, n)) + LevelRoles(LevelsOf(dims)) == ThreadRoles(pos, dims)
  {
    ActiveRolesAre(pos, dims, n);
    var a, b := LevelRoles(LevelsOf(dims)), set d, l | d in dims && l in d.levels :: Computes(l);
    forall r ensures r in a <==> r in b {
      if r.Computes? {
        InLevelsOf(dims, r.level);
      }
    }
    assert a == b;
  }

  lemma ActiveRolesAre(pos: nat -> nat, dims: seq<Dim>, n: nat)
    requires forall j :: 0 <= j < |dims| ==> pos(dims[j].id) < n
    requires forall i, j :: 0 <= i < j < |dims| ==> pos(dims[i].id) != pos(dims[j].id)
    ensures ActiveRoles(Active(pos, dims, n)) == set d | d in dims :: OnThread(pos(d.id), d.id)
  {
    var active := Active(pos, dims, n);
    var b := set d | d in dims :: OnThread(pos(d.id), d.id);
    forall r ensures r in ActiveRoles(active) <==> r in b {
      if r.OnThread? && r.pos < n {
        ActiveAt(pos, dims, n, r.pos, r.id);
        if r in ActiveRoles(active) {
          var j :| 0 <= j < |dims| && dims[j].id == r.id && pos(r.id) == r.pos;
          assert dims[j] in dims;
        }
        if r in b {
          var d :| d in dims && r == OnThread(pos(d.id), d.id);
          var j :| 0 <= j < |dims| && dims[j] == d;
          assert active[r.pos] == Some(r.id);
        }
      }
    }
  }

  lemma VectorRolesAre(dims: seq<Dim>)
    requires forall k :: 0 <= k < |dims| ==> dims[k].kind.IsVector()
    ensures VectorRoles(OfKind(dims, OuterVector)) + VectorRoles(OfKind(dims, InnerVector)) == VectorRoles(dims)
  {
    forall d ensures d in OfKind(dims, OuterVector) || d in OfKind(dims, InnerVector) <==> d in dims {
      InOfKind(dims, OuterVector, d);
      InOfKind(dims, InnerVector, d);
    }
  }

  lemma {:induction false} GraphPlacesAre(pos: nat -> nat, n: nat, body: seq<Nest>, around: set<Role>)
    requires WellFormedAll(pos, n, body)
    ensures GraphPlacesAll(GraphOfAll(pos, n, body), around) == PlacesAll(pos, body, around)
    decreases body, 1, |body|
  {
    if body != [] {
      var m := |body| - 1;
      GraphPlacesAre(pos, n, body[..m], around);
      GraphPlaceIs(pos, n, body[m], around);
      var before := GraphOfAll(pos, n, body[..m]);
      assert (before + [GraphOf(pos, n, body[m])])[..|before|] == before;
    }
  }

  lemma VectorPlaceIs(pos: nat -> nat, n: nat, nest: Nest, around: set<Role>)
    requires WellFormed(pos, n, nest) && nest.Vector?
    ensures GraphPlaces(GraphOf(pos, n, nest), around) == Places(pos, nest, around)
  {
    VectorRolesAre(nest.dims);
    var a, b := VectorRoles(OfKind(nest.dims, OuterVector)), VectorRoles(OfKind(nest.dims, InnerVector));
    assert around + a + b == around + (a + b);
  }

  lemma ThreadsAround(pos: nat -> nat, n: nat, dims: seq<Dim>, around: set<Role>)
    requires forall k :: 0 <= k < |dims| ==> pos(dims[k].id) < n
    requires forall i, j :: 0 <= i < j < |dims| ==> pos(dims[i].id) != pos(dims[j].id)
    ensures around + ActiveRoles(Active(pos, dims, n)) + LevelRoles(LevelsOf(dims)) == around + ThreadRoles(pos, dims)
  {
    ThreadRolesAre(pos, dims, n);
  }

  lemma {:induction false} GraphPlaceIs(pos: nat -> nat, n: nat, nest: Nest, around: set<Role>)
    requires WellFormed(pos, n, nest)
    ensures GraphPlaces(GraphOf(pos, n, nest), around) == Places(pos, nest, around)
    decreases nest, 0
  {
    match nest
    case Inst(_) =>
      assert VectorRoles([]) == {};
      assert around + {} + {} == around;
    case Vector(_, _) => VectorPlaceIs(pos, n, nest, around);
    case Sequential(dim, body) => GraphPlacesAre(pos, n, body, around + {InLoop(dim)});
    case Threads(dims, body) =>
      ThreadsAround(pos, n, dims, around);
      GraphPlacesAre(pos, 0, body, around + ThreadRoles(pos, dims));
  }

  lemma {:induction false} GraphByLevel(pos: nat -> nat, n: nat, body: seq<Nest>)
    requires WellFormedAll(pos, n, body)
    ensures forall k :: 0 <= k < |GraphOfAll(pos, n, body)| ==> VectorsByLevel(GraphOfAll(pos, n, body)[k])
    decreases body, 1, |body|
  {
    if body != [] {
      GraphByLevel(pos, n, body[..|body| - 1]);
      OneByLevel(pos, n, body[|body| - 1]);
    }
  }

  lemma {:induction false} OneByLevel(pos: nat -> nat, n: nat, nest: Nest)
    requires WellFormed(pos, n, nest)
    ensures VectorsByLevel(GraphOf(pos, n, nest))
    decreases nest, 0
  {
    match nest
    case Inst(_) =>
    case Vector(dims, _) =>
      forall d ensures d in OfKind(dims, OuterVector) ==> d.kind.OuterVector?
               ensures d in OfKind(dims, InnerVector) ==> d.kind.InnerVector?
      {
        InOfKind(dims, OuterVector, d);
        InOfKind(dims, InnerVector, d);
      }
    case Sequential(_, body) => GraphByLevel(pos, n, body);
    case Threads(_, body) => GraphByLevel(pos, 0, body);
  }

  lemma {:induction false} GraphListsAll(pos: nat -> nat, n: nat, m: nat, body: seq<Nest>)
    requires WellFormedAll(pos, n, body) && (n == 0 || n == m)
    ensures forall k :: 0 <= k < |GraphOfAll(pos, n, body)| ==> EmptyThreads.ListsAll(m, GraphOfAll(pos, n, body)[k])
    decreases body, 1, |body|
  {
    if body != [] {
      GraphListsAll(pos, n, m, body[..|body| - 1]);
      OneListsAll(pos, n, m, body[|body| - 1]);
    }
  }

  lemma {:induction false} OneListsAll(pos: nat -> nat, n: nat, m: nat, nest: Nest)
    requires WellFormed(pos, n, nest) && (n == 0 || n == m)
    ensures EmptyThreads.ListsAll(m, GraphOf(pos, n, nest))
    decreases nest, 0
  {
    match nest
    case Sequential(_, body) => GraphListsAll(pos, n, m, body);
    case Threads(dims, body) =>
      assert pos(dims[0].id) < n;
      GraphListsAll(pos, 0, m, body);
    case _ =>
  }

  // ----- The filled graph -----

  lemma {:induction false} PlacesConcat(a: seq<Graph>, b: seq<Graph>, around: set<Role>)
    ensures GraphPlacesAll(a + b, around) == GraphPlacesAll(a, around) + GraphPlacesAll(b, around)
  {
    if b == [] {
      assert a + b == a;
    } else {
      var m := |b| - 1;
      assert (a + b)[..|a + b| - 1] == a + b[..m];
      PlacesConcat(a, b[..m], around);
    }
  }

  /** The sets of threads that are added play no role. */
  lemma {:induction false} FillKeepsPlaces(n: nat, body: seq<Graph>, around: set<Role>)
    ensures GraphPlacesAll(EmptyThreads.Fill(n, body), around) == GraphPlacesAll(body, around)
    decreases body, 1, |body|
  {
    if body != [] {
      if EmptyThreads.HandlesThreads(body[0]) {
        FillOneKeepsPlaces(n, body[0], around);
        FillKeepsPlaces(n, body[1..], around);
        SplitPlaces([body[0]], body[1..], [EmptyThreads.FillOne(n, body[0])], EmptyThreads.Fill(n, body[1..]), body, around);
      } else {
        var k := EmptyThreads.LeadingRun(body);
        FillKeepsPlaces(n, body[k..], around);
        AddedKeepsPlaces(n, body[..k], around);
        SplitPlaces(body[..k], body[k..], [EmptyThreads.NoThread(n, body[..k])], EmptyThreads.Fill(n, body[k..]), body, around);
      }
    }
  }

  lemma SplitPlaces(a: seq<Graph>, b: seq<Graph>, a': seq<Graph>, b': seq<Graph>, body: seq<Graph>, around: set<Role>)
    requires body == a + b
    requires GraphPlacesAll(a', around) == GraphPlacesAll(a, around) && GraphPlacesAll(b', around) == GraphPlacesAll(b, around)
    ensures GraphPlacesAll(a' + b', around) == GraphPlacesAll(body, around)
  {
    PlacesConcat(a, b, around);
    PlacesConcat(a', b', around);
  }

  lemma OnePlace(g: Graph, around: set<Role>)
    ensures GraphPlacesAll([g], around) == GraphPlaces(g, around)
  {
    assert [g][..0] == [];
  }

  lemma AddedKeepsPlaces(n: nat, run: seq<Graph>, around: set<Role>)
    ensures GraphPlacesAll([EmptyThreads.NoThread(n, run)], around) == GraphPlacesAll(run, around)
  {
    var g := EmptyThreads.NoThread(n, run);
    OnePlace(g, around);
    assert ActiveRoles(g.active) == {} && LevelRoles(g.levels) == {};
    assert around + {} + {} == around;
  }

  lemma {:induction false} FillOneKeepsPlaces(n: nat, g: Graph, around: set<Role>)
    ensures GraphPlacesAll([EmptyThreads.FillOne(n, g)], around) == GraphPlacesAll([g], around)
    decreases g, 0
  {
    OnePlace(g, around);
    OnePlace(EmptyThreads.FillOne(n, g), around);
    match g
    case Root(body) => FillKeepsPlaces(n, body, around);
    case Loop(dim, body) => FillKeepsPlaces(n, body, around + {InLoop(dim)});
    case _ =>
  }

  lemma {:induction false} FillByLevel(n: nat, body: seq<Graph>)
    requires forall k :: 0 <= k < |body| ==> VectorsByLevel(body[k])
    ensures forall k :: 0 <= k < |EmptyThreads.Fill(n, body)| ==> VectorsByLevel(EmptyThreads.Fill(n, body)[k])
    decreases body, 1, |body|
  {
    if body != [] {
      if EmptyThreads.HandlesThreads(body[0]) {
        FillOneByLevel(n, body[0]);
        FillByLevel(n, body[1..]);
      } else {
        var k := EmptyThreads.LeadingRun(body);
        FillByLevel(n, body[k..]);
        assert VectorsByLevel(EmptyThreads.NoThread(n, body[..k]));
      }
    }
  }

  lemma {:induction false} FillOneByLevel(n: nat, g: Graph)
    requires VectorsByLevel(g)
    ensures VectorsByLevel(EmptyThreads.FillOne(n, g))
    decreases g, 0
  {
    match g
    case Root(body) => FillByLevel(n, body);
    case Loop(_, body) => FillByLevel(n, body);
    case _ =>
  }

  /**
   In the graph built for a nest, each instruction has the loops, the threads at their positions,
   the levels and the vector dimensions that enclose it in the nest, and no other. Every set of
   threads lists each thread dimension.
   */
  lemma GraphSaysWhatNestSays(pos: nat -> nat, n: nat, nest: seq<Nest>)
    requires WellFormedAll(pos, n, nest)
    ensures
      var graph := Root(EmptyThreads.Fill(n, GraphOfAll(pos, n, nest)));
      && GraphPlaces(graph, {}) == PlacesAll(pos, nest, {})
      && VectorsByLevel(graph) && EmptyThreads.ListsAll(n, graph)
  {
    var body := GraphOfAll(pos, n, nest);
    GraphPlacesAre(pos, n, nest, {});
    FillKeepsPlaces(n, body, {});
    GraphByLevel(pos, n, nest);
    FillByLevel(n, body);
    GraphListsAll(pos, n, n, nest);
    EmptyThreads.FillListsAll(n, body);
  }
}
