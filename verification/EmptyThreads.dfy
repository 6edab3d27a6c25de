/** The pass that places every instruction of a control flow graph under a set of active threads. */
module EmptyThreads {
  import opened Wrappers
  import opened Sequences
  import opened NestParser

  /** Whether threads are active somewhere in the graph. */
  predicate HandlesThreads(g: Graph) {
    match g
    case Root(body) => exists k :: 0 <= k < |body| && HandlesThreads(body[k])
    case Loop(_, body) => exists k :: 0 <= k < |body| && HandlesThreads(body[k])
    case Threads(_, _, _) => true
    case Instruction(_, _, _) => false
  }

  /** The number of leading graphs without threads. */
  function LeadingRun(body: seq<Graph>): (k: nat)
    ensures k <= |body|
    ensures forall i :: 0 <= i < k ==> !HandlesThreads(body[i])
    ensures k < |body| ==> HandlesThreads(body[k])
  {
    if body == [] || HandlesThreads(body[0]) then 0 else 1 + LeadingRun(body[1..])
  }

  function NoThread(n: nat, body: seq<Graph>): Graph {
    Graph.Threads(seq(n, _ => None), [], body)
  }

  function FillOne(n: nat, g: Graph): Graph
    decreases g, 0
  {
    match g
    case Root(body) => Root(Fill(n, body))
    case Loop(dim, body) => Graph.Loop(dim, Fill(n, body))
    case _ => g
  }

  /** Graphs without threads are grouped under a node without active threads. */
  function Fill(n: nat, body: seq<Graph>): seq<Graph>
    decreases body, 1, |body|
  {
    if body == [] then []
    else if HandlesThreads(body[0]) then [FillOne(n, body[0])] + Fill(n, body[1..])
    else
      var k := LeadingRun(body);
      [NoThread(n, body[..k])] + Fill(n, body[k..])
  }

  lemma FillStep(n: nat, body: seq<Graph>, i: nat, filled: seq<Graph>)
    requires i < |body|
    ensures HandlesThreads(body[i]) ==>
              filled + Fill(n, body[i..]) == (filled + [FillOne(n, body[i])]) + Fill(n, body[i + 1..])
    ensures !HandlesThreads(body[i]) ==>
              var k := LeadingRun(body[i..]);
              filled + Fill(n, body[i..]) == (filled + [NoThread(n, body[i..][..k])]) + Fill(n, body[i + k..])
  {
    var rest := body[i..];
    var k := LeadingRun(rest);
    assert rest[0] == body[i] && rest[1..] == body[i + 1..] && rest[k..] == body[i + k..];
    if HandlesThreads(body[i]) {
      Regroup(filled, FillOne(n, body[i]), Fill(n, body[i + 1..]));
    } else {
      Regroup(filled, NoThread(n, rest[..k]), Fill(n, body[i + k..]));
    }
  }

  method AddEmptyThreads(body: seq<Graph>, n: nat) returns (filled: seq<Graph>)
    ensures filled == Fill(n, body)
    decreases body, 1
  {
    filled := [];
    var i := 0;
    assert body[0..] == body && [] + Fill(n, body) == Fill(n, body);
    while i < |body|
      invariant 0 <= i <= |body| && filled + Fill(n, body[i..]) == Fill(n, body)
    {
      FillStep(n, body, i, filled);
      if HandlesThreads(body[i]) {
        var graph := AddInside(body[i], n);
        filled, i := filled + [graph], i + 1;
      } else {
        var k := LeadingRun(body[i..]);
        filled, i := filled + [NoThread(n, body[i..][..k])], i + k;
      }
    }
  }

  method AddInside(g: Graph, n: nat) returns (filled: Graph)
    ensures filled == FillOne(n, g)
    decreases g, 0
  {
    match g {
      case Root(inner) =>
        var inner' := AddEmptyThreads(inner, n);
        filled := Root(inner');
      case Loop(dim, inner) =>
        var inner' := AddEmptyThreads(inner, n);
        filled := Graph.Loop(dim, inner');
      case _ => filled := g;
    }
  }

  // ----- Instructions -----

  function Insts(g: Graph): seq<nat> {
    match g
    case Root(body) => InstsAll(body)
    case Loop(_, body) => InstsAll(body)
    case Threads(_, _, body) => InstsAll(body)
    case Instruction(_, _, id) => [id]
  }

  function InstsAll(body: seq<Graph>): seq<nat> {
    if body == [] then [] else Insts(body[0]) + InstsAll(body[1..])
  }

  /** The number of sets of threads around each instruction. */
  function Depths(g: Graph, depth: nat): seq<nat> {
    match g
    case Root(body) => DepthsAll(body, depth)
    case Loop(_, body) => DepthsAll(body, depth)
    case Threads(_, _, body) => DepthsAll(body, depth + 1)
    case Instruction(_, _, _) => [depth]
  }

  function DepthsAll(body: seq<Graph>, depth: nat): seq<nat> {
    if body == [] then [] else Depths(body[0], depth) + DepthsAll(body[1..], depth)
  }

  lemma {:induction false} InstsConcat(a: seq<Graph>, b: seq<Graph>)
    ensures InstsAll(a + b) == InstsAll(a) + InstsAll(b)
  {
    if a == [] {
      assert a + b == b;
    } else {
      assert (a + b)[1..] == a[1..] + b;
      InstsConcat(a[1..], b);
    }
  }

  lemma {:induction false} DepthsConcat(a: seq<Graph>, b: seq<Graph>, depth: nat)
    ensures DepthsAll(a + b, depth) == DepthsAll(a, depth) + DepthsAll(b, depth)
  {
    if a == [] {
      assert a + b == b;
    } else {
      assert (a + b)[1..] == a[1..] + b;
      DepthsConcat(a[1..], b, depth);
    }
  }

  /** The instructions are those of the input, in the same order. */
  lemma {:induction false} FillKeepsInsts(n: nat, body: seq<Graph>)
    ensures InstsAll(Fill(n, body)) == InstsAll(body)
    decreases body, 1, |body|
  {
    if body != [] {
      if HandlesThreads(body[0]) {
        FillOneKeepsInsts(n, body[0]);
        FillKeepsInsts(n, body[1..]);
      } else {
        var k := LeadingRun(body);
        FillKeepsInsts(n, body[k..]);
        InstsConcat(body[..k], body[k..]);
        assert body[..k] + body[k..] == body;
      }
    }
  }

  lemma {:induction false} FillOneKeepsInsts(n: nat, g: Graph)
    ensures Insts(FillOne(n, g)) == Insts(g)
    decreases g, 0
  {
    match g
    case Root(body) => FillKeepsInsts(n, body);
    case Loop(_, body) => FillKeepsInsts(n, body);
    case _ =>
  }

  /** At least one. */
  function Once(depths: seq<nat>): (r: seq<nat>)
    ensures |r| == |depths|
    ensures forall k :: 0 <= k < |r| ==> r[k] == if depths[k] == 0 then 1 else depths[k]
  {
    seq(|depths|, k requires 0 <= k < |depths| => if depths[k] == 0 then 1 else depths[k])
  }

  lemma {:induction false} NoThreadsInside(g: Graph, depth: nat)
    requires !HandlesThreads(g)
    ensures Depths(g, depth + 1) == Bump(Depths(g, depth))
    ensures forall k :: 0 <= k < |Depths(g, depth)| ==> Depths(g, depth)[k] == depth
    decreases g, 0
  {
    match g
    case Root(body) => NoThreadsInsideAll(body, depth);
    case Loop(_, body) => NoThreadsInsideAll(body, depth);
    case Instruction(_, _, _) =>
  }

  function Bump(s: seq<nat>): (r: seq<nat>)
    ensures |r| == |s| && forall k :: 0 <= k < |r| ==> r[k] == s[k] + 1
  {
    seq(|s|, k requires 0 <= k < |s| => s[k] + 1)
  }

  lemma {:induction false} NoThreadsInsideAll(body: seq<Graph>, depth: nat)
    requires forall k :: 0 <= k < |body| ==> !HandlesThreads(body[k])
    ensures DepthsAll(body, depth + 1) == Bump(DepthsAll(body, depth))
    ensures forall k :: 0 <= k < |DepthsAll(body, depth)| ==> DepthsAll(body, depth)[k] == depth
    decreases body, 1, |body|
  {
    if body != [] {
      NoThreadsInside(body[0], depth);
      NoThreadsInsideAll(body[1..], depth);
      BumpConcat(Depths(body[0], depth), DepthsAll(body[1..], depth));
    }
  }

  lemma BumpConcat(a: seq<nat>, b: seq<nat>)
    ensures Bump(a + b) == Bump(a) + Bump(b)
  {
  }

  /** An instruction outside threads ends under exactly one set of threads, the others stay where they were. */
  lemma {:induction false} FillCoversOnce(n: nat, body: seq<Graph>)
    ensures DepthsAll(Fill(n, body), 0) == Once(DepthsAll(body, 0))
    decreases body, 1, |body|
  {
    if body != [] {
      if HandlesThreads(body[0]) {
        FillOneCoversOnce(n, body[0]);
        FillCoversOnce(n, body[1..]);
        OnceConcat(Depths(body[0], 0), DepthsAll(body[1..], 0));
      } else {
        var k := LeadingRun(body);
        FillCoversOnce(n, body[k..]);
        GroupCoversOnce(NoThread(n, body[..k]));
        DepthsConcat(body[..k], body[k..], 0);
        assert body[..k] + body[k..] == body;
        OnceConcat(DepthsAll(body[..k], 0), DepthsAll(body[k..], 0));
      }
    }
  }

  lemma OnceConcat(a: seq<nat>, b: seq<nat>)
    ensures Once(a + b) == Once(a) + Once(b)
  {
  }

  lemma GroupCoversOnce(g: Graph)
    requires g.Threads? && forall k :: 0 <= k < |g.body| ==> !HandlesThreads(g.body[k])
    ensures Depths(g, 0) == Once(DepthsAll(g.body, 0))
  {
    var depths, inside := DepthsAll(g.body, 0), DepthsAll(g.body, 1);
    NoThreadsInsideAll(g.body, 0);
    UnderThreads(g, 0);
    assert inside == Bump(depths);
    OnceOfZeros(depths);
  }

  lemma UnderThreads(g: Graph, depth: nat)
    requires g.Threads?
    ensures Depths(g, depth) == DepthsAll(g.body, depth + 1)
  {
  }

  lemma OnceOfZeros(s: seq<nat>)
    requires forall k :: 0 <= k < |s| ==> s[k] == 0
    ensures Once(s) == Bump(s)
  {
  }

  lemma {:induction false} FillOneCoversOnce(n: nat, g: Graph)
    requires HandlesThreads(g)
    ensures Depths(FillOne(n, g), 0) == Once(Depths(g, 0))
    decreases g, 0
  {
    match g
    case Root(body) => FillCoversOnce(n, body);
    case Loop(_, body) => FillCoversOnce(n, body);
    case Threads(_, _, body) => DepthsAtLeast(body, 1);
  }

  lemma {:induction false} DepthsAtLeast(body: seq<Graph>, depth: nat)
    ensures forall k :: 0 <= k < |DepthsAll(body, depth)| ==> DepthsAll(body, depth)[k] >= depth
    decreases body, 1, |body|
  {
    if body != [] {
      DepthAtLeast(body[0], depth);
      DepthsAtLeast(body[1..], depth);
    }
  }

  lemma {:induction false} DepthAtLeast(g: Graph, depth: nat)
    ensures forall k :: 0 <= k < |Depths(g, depth)| ==> Depths(g, depth)[k] >= depth
    decreases g, 0
  {
    match g
    case Root(body) => DepthsAtLeast(body, depth);
    case Loop(_, body) => DepthsAtLeast(body, depth);
    case Threads(_, _, body) => DepthsAtLeast(body, depth + 1);
    case Instruction(_, _, _) =>
  }

  // ----- Structure -----

  predicate IsEmptyThreads(g: Graph) {
    g.Threads? && g.levels == [] && forall k :: 0 <= k < |g.active| ==> g.active[k] == None
  }

  /** The graph without its nodes that activate no thread. */
  function Erase(g: Graph): seq<Graph> {
    match g
    case Root(body) => [Root(EraseAll(body))]
    case Loop(dim, body) => [Graph.Loop(dim, EraseAll(body))]
    case Threads(active, levels, body) =>
      if IsEmptyThreads(g) then EraseAll(body) else [Graph.Threads(active, levels, EraseAll(body))]
    case Instruction(_, _, _) => [g]
  }

  function EraseAll(body: seq<Graph>): seq<Graph> {
    if body == [] then [] else Erase(body[0]) + EraseAll(body[1..])
  }

  predicate NoEmptyThreads(g: Graph) {
    match g
    case Root(body) => forall k :: 0 <= k < |body| ==> NoEmptyThreads(body[k])
    case Loop(_, body) => forall k :: 0 <= k < |body| ==> NoEmptyThreads(body[k])
    case Threads(_, _, body) => !IsEmptyThreads(g) && forall k :: 0 <= k < |body| ==> NoEmptyThreads(body[k])
    case Instruction(_, _, _) => true
  }

  lemma {:induction false} EraseNothing(body: seq<Graph>)
    requires forall k :: 0 <= k < |body| ==> NoEmptyThreads(body[k])
    ensures EraseAll(body) == body
    decreases body, 1, |body|
  {
    if body != [] {
      EraseNothingIn(body[0]);
      EraseNothing(body[1..]);
      assert body == [body[0]] + body[1..];
    }
  }

  lemma {:induction false} EraseNothingIn(g: Graph)
    requires NoEmptyThreads(g)
    ensures Erase(g) == [g]
    decreases g, 0
  {
    match g
    case Root(body) => EraseNothing(body);
    case Loop(_, body) => EraseNothing(body);
    case Threads(_, _, body) => EraseNothing(body);
    case Instruction(_, _, _) =>
  }

  /** The pass only adds nodes without active threads: erasing them gives the input back. */
  lemma {:induction false} FillErases(n: nat, body: seq<Graph>)
    requires forall k :: 0 <= k < |body| ==> NoEmptyThreads(body[k])
    ensures EraseAll(Fill(n, body)) == body
    decreases body, 1, |body|
  {
    if body != [] {
      if HandlesThreads(body[0]) {
        FillOneErases(n, body[0]);
        FillErases(n, body[1..]);
        EraseHead(FillOne(n, body[0]), Fill(n, body[1..]));
        assert body == [body[0]] + body[1..];
      } else {
        var k := LeadingRun(body);
        FillErases(n, body[k..]);
        EraseNothing(body[..k]);
        assert IsEmptyThreads(NoThread(n, body[..k]));
        EraseHead(NoThread(n, body[..k]), Fill(n, body[k..]));
        assert body == body[..k] + body[k..];
      }
    }
  }

  lemma EraseHead(g: Graph, body: seq<Graph>)
    ensures EraseAll([g] + body) == Erase(g) + EraseAll(body)
  {
    assert ([g] + body)[1..] == body;
  }

  lemma {:induction false} FillOneErases(n: nat, g: Graph)
    requires NoEmptyThreads(g)
    ensures Erase(FillOne(n, g)) == [g]
    decreases g, 0
  {
    match g
    case Root(body) => FillErases(n, body);
    case Loop(_, body) => FillErases(n, body);
    case Threads(_, _, body) => EraseNothing(body);
    case Instruction(_, _, _) =>
  }

  lemma {:induction false} FillHandles(n: nat, body: seq<Graph>)
    ensures forall k :: 0 <= k < |Fill(n, body)| ==> HandlesThreads(Fill(n, body)[k])
    ensures body != [] ==> Fill(n, body) != []
    decreases body, 1, |body|
  {
    if body != [] {
      if HandlesThreads(body[0]) {
        match body[0] {
          case Root(inner) =>
            FillHandles(n, inner);
            assert HandlesThreads(Fill(n, inner)[0]);
          case Loop(_, inner) =>
            FillHandles(n, inner);
            assert HandlesThreads(Fill(n, inner)[0]);
          case _ =>
        }
        assert HandlesThreads(FillOne(n, body[0]));
        FillHandles(n, body[1..]);
      } else {
        FillHandles(n, body[LeadingRun(body)..]);
      }
    }
  }

  /** A second pass changes nothing. */
  lemma {:induction false} FillIdempotent(n: nat, body: seq<Graph>)
    ensures Fill(n, Fill(n, body)) == Fill(n, body)
    decreases body, 1, |body|
  {
    FillHandles(n, body);
    if body != [] {
      var filled := Fill(n, body);
      if HandlesThreads(body[0]) {
        match body[0] {
          case Root(inner) => FillIdempotent(n, inner);
          case Loop(_, inner) => FillIdempotent(n, inner);
          case _ =>
        }
        assert filled[1..] == Fill(n, body[1..]);
        FillIdempotent(n, body[1..]);
      } else {
        var k := LeadingRun(body);
        assert filled[1..] == Fill(n, body[k..]);
        FillIdempotent(n, body[k..]);
      }
    }
  }

  // ----- The nodes added -----

  /** Every set of threads says of each of `n` thread dimensions whether it is active. */
  predicate ListsAll(n: nat, g: Graph) {
    match g
    case Root(body) => forall k :: 0 <= k < |body| ==> ListsAll(n, body[k])
    case Loop(_, body) => forall k :: 0 <= k < |body| ==> ListsAll(n, body[k])
    case Threads(active, _, body) => |active| == n && forall k :: 0 <= k < |body| ==> ListsAll(n, body[k])
    case Instruction(_, _, _) => true
  }

  /** The nodes added list every thread dimension as inactive, like those of the graph. */
  lemma {:induction false} FillListsAll(n: nat, body: seq<Graph>)
    requires forall k :: 0 <= k < |body| ==> ListsAll(n, body[k])
    ensures forall k :: 0 <= k < |Fill(n, body)| ==> ListsAll(n, Fill(n, body)[k])
    decreases body, 1, |body|
  {
    if body != [] {
      if HandlesThreads(body[0]) {
        FillOneListsAll(n, body[0]);
        FillListsAll(n, body[1..]);
      } else {
        var k := LeadingRun(body);
        FillListsAll(n, body[k..]);
        assert ListsAll(n, NoThread(n, body[..k]));
      }
    }
  }

  lemma {:induction false} FillOneListsAll(n: nat, g: Graph)
    requires ListsAll(n, g)
    ensures ListsAll(n, FillOne(n, g))
    decreases g, 0
  {
    match g
    case Root(body) => FillListsAll(n, body);
    case Loop(_, body) => FillListsAll(n, body);
    case _ =>
  }

  /** Two sets without active threads never follow each other. */
  predicate Grouped(body: seq<Graph>) {
    forall k :: 0 <= k < |body| - 1 ==> !(IsEmptyThreads(body[k]) && IsEmptyThreads(body[k + 1]))
  }

  predicate GroupedIn(g: Graph) {
    match g
    case Root(body) => Grouped(body) && forall k :: 0 <= k < |body| ==> GroupedIn(body[k])
    case Loop(_, body) => Grouped(body) && forall k :: 0 <= k < |body| ==> GroupedIn(body[k])
    case Threads(_, _, body) => Grouped(body) && forall k :: 0 <= k < |body| ==> GroupedIn(body[k])
    case Instruction(_, _, _) => true
  }

  lemma {:induction false} PlainIsGrouped(g: Graph)
    requires NoEmptyThreads(g)
    ensures GroupedIn(g) && !IsEmptyThreads(g)
    decreases g
  {
    if !g.Instruction? {
      forall k | 0 <= k < |g.body| ensures GroupedIn(g.body[k]) && !IsEmptyThreads(g.body[k]) {
        PlainIsGrouped(g.body[k]);
      }
    }
  }

  /** Neighbours that need threads are put under one set, so that there is one barrier for all of them. */
  lemma {:induction false} FillGroups(n: nat, body: seq<Graph>)
    requires forall k :: 0 <= k < |body| ==> NoEmptyThreads(body[k])
    ensures Grouped(Fill(n, body)) && forall k :: 0 <= k < |Fill(n, body)| ==> GroupedIn(Fill(n, body)[k])
    ensures body != [] ==> (IsEmptyThreads(Fill(n, body)[0]) <==> !HandlesThreads(body[0]))
    decreases body, 1, |body|
  {
    if body != [] {
      if HandlesThreads(body[0]) {
        FillOneGroups(n, body[0]);
        FillGroups(n, body[1..]);
      } else {
        var k := LeadingRun(body);
        FillGroups(n, body[k..]);
        RunGrouped(n, body[..k]);
      }
    }
  }

  lemma RunGrouped(n: nat, run: seq<Graph>)
    requires forall k :: 0 <= k < |run| ==> NoEmptyThreads(run[k])
    ensures GroupedIn(NoThread(n, run)) && IsEmptyThreads(NoThread(n, run))
  {
    forall k | 0 <= k < |run| ensures GroupedIn(run[k]) && !IsEmptyThreads(run[k]) {
      PlainIsGrouped(run[k]);
    }
  }

  lemma {:induction false} FillOneGroups(n: nat, g: Graph)
    requires NoEmptyThreads(g) && HandlesThreads(g)
    ensures GroupedIn(FillOne(n, g)) && !IsEmptyThreads(FillOne(n, g))
    decreases g, 0
  {
    match g
    case Root(body) => FillGroups(n, body);
    case Loop(_, body) => FillGroups(n, body);
    case Threads(_, _, body) => PlainIsGrouped(g);
  }
}
