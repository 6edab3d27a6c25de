/** The inductive invariant of the search tree and its preservation by every event. */
module SearchInvariant {
  import opened Wrappers
  import opened Extended
  import opened SearchTree

  /** What the fields of a node say about the candidate it stands for. */
  ghost predicate NodeOk(c: Config, p: Path, n: Node) {
    match At(c.space, p)
    case None => n == NewNode(None)
    case Some(space) =>
      && n.bound == Some(space.bound)
      && n.arity == |space.children|
      && (n.candidate.Some? ==> n.candidate == Some(space))
      && (n.expanded ==> n.lock == None)
  }

  ghost predicate IsChild(s: State, p: Path, i: nat) {
    p in s.nodes && i < s.nodes[p].arity && p + [i] in s.nodes
  }

  /** The reasons for which a node may be dead. */
  ghost predicate Justified(s: State, p: Path)
    requires p in s.nodes
  {
    var n := s.nodes[p];
    || n.bound == None
    || !s.cut.Above(n.bound.value)
    || (n.arity == 0 && p in s.handed)
    || (n.arity > 0 && forall i: nat :: i < n.arity ==> IsChild(s, p, i) && s.nodes[p + [i]].dead)
  }

  ghost predicate InExplicitTree(s: State, p: Path) {
    p == [] || (Parent(p) in s.nodes && s.nodes[Parent(p)].expanded)
  }

  /** A node of the explicit tree is dead, expanded, being expanded or holds its candidate. */
  predicate Owned(n: Node) {
    n.dead || n.expanded || n.lock.Some? || n.candidate.Some?
  }

  /** What holds of every node of the tree. */
  ghost predicate NodeInv(c: Config, s: State, p: Path)
    requires p in s.nodes
  {
    var n := s.nodes[p];
    && NodeOk(c, p, n)
    && (p != [] ==> Parent(p) in s.nodes && Last(p) < s.nodes[Parent(p)].arity)
    && (n.dead ==> Justified(s, p))
    && (n.expanded || n.lock.Some? ==> InExplicitTree(s, p))
    && (InExplicitTree(s, p) ==> Owned(n))
    && (n.expanded ==> forall i: nat :: i < n.arity ==> IsChild(s, p, i))
    && (p in s.taken <==> n.expanded || n.lock.Some?)
    && (p in s.taken ==> n.candidate == None)
  }

  ghost predicate SharedInv(c: Config, s: State) {
    && [] in s.nodes
    && (forall p {:trigger NodeInv(c, s, p)} :: p in s.nodes ==> NodeInv(c, s, p))
    && (forall p :: p in s.handed ==> p in s.nodes && IsImplementation(c.space, p))
    && s.taken <= s.nodes.Keys
  }

  predicate HoldsLock(w: Worker) {
    w.pc.Expanding? || w.pc.Storing?
  }

  ghost predicate LockInv(s: State) {
    forall p :: p in s.nodes && s.nodes[p].lock.Some? ==>
      var t := s.nodes[p].lock.value;
      t < |s.workers| && s.workers[t].node == p && HoldsLock(s.workers[t])
  }

  ghost predicate FrameOk(c: Config, s: State, f: Frame) {
    && f.node in s.nodes
    && s.nodes[f.node].arity > 0
    && match f
       case InTree(p) => s.nodes[p].expanded
       case Rollout(p, candidate) => At(c.space, p) == Some(candidate)
  }

  ghost predicate AtFrame(w: Worker) {
    w.frames != [] && w.node == w.frames[|w.frames| - 1].node
  }

  /** The children visited by an expansion are dead or hold their candidate. */
  ghost predicate Stored(s: State, p: Path, upTo: nat) {
    forall j: nat :: j < upTo ==>
      IsChild(s, p, j) && (s.nodes[p + [j]].dead || s.nodes[p + [j]].candidate.Some?)
  }

  /** The children visited by a scan are dead or listed. */
  ghost predicate Scanned(s: State, p: Path, upTo: nat, live: seq<nat>, expanded: seq<nat>) {
    && (forall j: nat :: j < upTo ==> IsChild(s, p, j) && (s.nodes[p + [j]].dead || j in live || j in expanded))
    && (forall j :: j in live ==> j < upTo && IsChild(s, p, j) && s.nodes[p + [j]].bound.Some?)
    && (forall j :: j in expanded ==> j < upTo && IsChild(s, p, j) && s.nodes[p + [j]].expanded)
  }

  ghost predicate ExpansionInv(c: Config, s: State, t: nat, i: nat, candidate: Space)
    requires t < |s.workers| && s.workers[t].node in s.nodes
  {
    var p := s.workers[t].node;
    var n := s.nodes[p];
    && At(c.space, p) == Some(candidate)
    && n.lock == Some(t) && !n.expanded
    && i <= n.arity
    && Stored(s, p, i)
  }

  ghost predicate PcInv(c: Config, s: State, t: nat)
    requires t < |s.workers| && s.workers[t].node in s.nodes && [] in s.nodes
  {
    var w := s.workers[t];
    var n := s.nodes[w.node];
    match w.pc
    case LoadEpoch => w.node == [] && w.frames == []
    case RootCut => w.node == [] && w.frames == []
    case RootCheck => w.node == [] && w.frames == []
    case ExpandCut => InExplicitTree(s, w.node) && (w.frames == [] ==> w.node == [])
    case ExpandAcquire => InExplicitTree(s, w.node) && (w.frames == [] ==> w.node == [])
    case Expanding(i, candidate) => ExpansionInv(c, s, t, i, candidate)
    case Storing(i, candidate) =>
      ExpansionInv(c, s, t, i, candidate) && IsChild(s, w.node, i) && s.nodes[w.node + [i]].bound.Some?
    case ExpandFailed => (n.dead || n.expanded) && (w.frames == [] ==> w.node == [])
    case Walk(candidate) => At(c.space, w.node) == Some(candidate)
    case Handing => w.node in s.handed
    case Checking => AtFrame(w)
    case CheckingEpoch => AtFrame(w)
    case CheckingNode => AtFrame(w)
    case Refreshing => AtFrame(w)
    case CutHere => AtFrame(w)
    case Scanning(i, live, expanded) =>
      && AtFrame(w) && i <= n.arity
      && Scanned(s, w.node, i, live, expanded)
    case Sorting(i, live, expanded) =>
      && AtFrame(w) && w.frames[|w.frames| - 1].InTree?
      && IsChild(s, w.node, i) && s.nodes[w.node + [i]].bound.Some?
      && Scanned(s, w.node, i, live, expanded)
    case Finished(aborted) => if aborted then s.stop else s.nodes[[]].dead
    case Panicked(reason) =>
      || (reason == NotInTree && s.nodes[[]].dead)
      || (reason == ImplementationInTree && c.space.children == [])
    case _ => true
  }

  ghost predicate WorkerInv(c: Config, s: State, t: nat)
    requires t < |s.workers|
  {
    var w := s.workers[t];
    && [] in s.nodes
    && (w.pc.Outside? || w.pc.Loop? || (w.node in s.nodes && PcInv(c, s, t)))
    && (w.pc.Outside? || w.pc.Loop? || s.cut.Le(w.cut))
    && (w.pc.Outside? || w.pc.Loop? || w.pc.Finished? || forall f :: f in w.frames ==> FrameOk(c, s, f))
  }

  ghost predicate Inv(c: Config, s: State) {
    && SharedInv(c, s)
    && LockInv(s)
    && forall t {:trigger WorkerInv(c, s, t)} :: 0 <= t < |s.workers| ==> WorkerInv(c, s, t)
  }

  // ----- What one step may do to the data of the others -----

  /** The shared state only evolves in ways every worker but `t` tolerates. */
  ghost predicate Tolerable(s: State, s': State, t: nat) {
    && |s'.workers| == |s.workers|
    && (forall u :: 0 <= u < |s.workers| && u != t ==> s'.workers[u] == s.workers[u])
    && (forall p :: p in s.nodes ==> p in s'.nodes && NodeTolerable(s, s', t, p))
    && s'.cut.Le(s.cut)
    && (s.stop ==> s'.stop)
    && s.handed <= s'.handed
  }

  ghost predicate NodeTolerable(s: State, s': State, t: nat, p: Path)
    requires p in s.nodes && p in s'.nodes
  {
    var n, n' := s.nodes[p], s'.nodes[p];
    && n'.bound == n.bound && n'.arity == n.arity
    && (n.dead ==> n'.dead)
    && (n.expanded ==> n'.expanded)
    && (n.lock.Some? && n.lock != Some(t) ==> n'.lock == n.lock && n'.expanded == n.expanded)
    && (n.candidate.Some? ==> n'.candidate.Some? || n'.dead || InExplicitTree(s, p))
  }

  lemma LeTrans(a: Ext, b: Ext, d: Ext)
    requires a.Le(b) && b.Le(d)
    ensures a.Le(d)
  {
  }

  /** A child of a node that is being expanded is not yet in the explicit tree. */
  lemma ChildOutsideTree(s: State, p: Path, i: nat)
    requires p in s.nodes && !s.nodes[p].expanded
    ensures !InExplicitTree(s, p + [i])
  {
    assert Parent(p + [i]) == p;
  }

  /** A step of worker `t` keeps what another worker relies on. */
  lemma OthersKeepInv(c: Config, s: State, s': State, t: nat, u: nat)
    requires u < |s.workers| && u != t && WorkerInv(c, s, u) && Tolerable(s, s', t)
    ensures WorkerInv(c, s', u)
  {
    var w := s.workers[u];
    LeTrans(s'.cut, s.cut, if w.pc.Outside? || w.pc.Loop? then Inf else w.cut);
    if w.pc.Expanding? || w.pc.Storing? {
      forall j: nat | j < w.pc.edge ensures IsChild(s', w.node, j) {
        assert IsChild(s, w.node, j);
        ChildOutsideTree(s, w.node, j);
      }
      assert Stored(s', w.node, w.pc.edge);
    }
  }
}
