/** Every event of the search keeps the invariant. */
module SearchSteps {
  import opened Wrappers
  import opened Extended
  import opened SearchTree
  import opened SearchInvariant

  /** A step of worker `t` that keeps everything. */
  ghost predicate Keeps(c: Config, s: State, s': State, t: nat)
    requires t < |s.workers|
  {
    && SharedInv(c, s')
    && LockInv(s')
    && Tolerable(s, s', t)
    && WorkerInv(c, s', t)
  }

  lemma AtChild(root: Space, p: Path, i: nat)
    ensures At(root, p + [i]) == match At(root, p) case None => None case Some(s) => ApplyAction(s, i)
  {
    assert Parent(p + [i]) == p;
  }

  lemma JustifiedMonotone(s: State, s': State, t: nat, p: Path)
    requires p in s.nodes && p in s'.nodes && Justified(s, p) && Tolerable(s, s', t)
    ensures Justified(s', p)
  {
    var n := s.nodes[p];
    if n.arity > 0 && forall i: nat :: i < n.arity ==> IsChild(s, p, i) && s.nodes[p + [i]].dead {
      forall i: nat | i < n.arity ensures IsChild(s', p, i) && s'.nodes[p + [i]].dead {
        assert IsChild(s, p, i);
      }
    }
  }

  /** A node is unaffected by changes elsewhere, unless its parent becomes expanded. */
  lemma NodeInvStable(c: Config, s: State, s': State, t: nat, p: Path)
    requires p in s.nodes && NodeInv(c, s, p) && Tolerable(s, s', t)
    requires s'.nodes[p] == s.nodes[p] && (p in s'.taken <==> p in s.taken)
    requires InExplicitTree(s', p) ==> InExplicitTree(s, p)
    ensures NodeInv(c, s', p)
  {
    if s.nodes[p].dead { JustifiedMonotone(s, s', t, p); }
    if s.nodes[p].expanded {
      forall i: nat | i < s'.nodes[p].arity ensures IsChild(s', p, i) {
        assert IsChild(s, p, i);
      }
    }
  }

  /** Nodes are unaffected by a change of node `q` that does not expand it. */
  lemma OneNodeChanges(c: Config, s: State, s': State, t: nat, q: Path)
    requires SharedInv(c, s) && Tolerable(s, s', t)
    requires q in s'.nodes && s'.nodes.Keys == s.nodes.Keys + {q}
    requires s'.nodes[q].expanded ==> q in s.nodes && s.nodes[q].expanded
    requires forall p :: p in s.nodes && p != q ==> s'.nodes[p] == s.nodes[p] && (p in s'.taken <==> p in s.taken)
    requires NodeInv(c, s', q)
    requires s'.taken <= s.taken + {q}
    requires forall p :: p in s'.handed ==> p in s'.nodes && IsImplementation(c.space, p)
    ensures SharedInv(c, s')
  {
    forall p | p in s'.nodes ensures NodeInv(c, s', p) {
      if p != q {
        assert NodeInv(c, s, p);
        NodeInvStable(c, s, s', t, p);
      }
    }
  }

  lemma KillKeeps(c: Config, s: State, t: nat, p: Path)
    requires SharedInv(c, s) && p in s.nodes && Justified(s, p)
    ensures SharedInv(c, Kill(s, p)) && Tolerable(s, Kill(s, p), t)
  {
    var s' := Kill(s, p);
    assert NodeInv(c, s, p);
    JustifiedMonotone(s, s', t, p);
    assert p != [] ==> |Parent(p)| < |p|;
    if s.nodes[p].expanded {
      forall i: nat | i < s'.nodes[p].arity ensures IsChild(s', p, i) {
        assert IsChild(s, p, i);
      }
    }
    assert NodeInv(c, s', p);
    OneNodeChanges(c, s, s', t, p);
  }

  lemma CutNodeKeeps(c: Config, s: State, t: nat, p: Path, cut: Ext)
    requires SharedInv(c, s) && p in s.nodes && s.cut.Le(cut)
    ensures var (s1, dead) := CutNode(s, p, cut);
            && SharedInv(c, s1) && Tolerable(s, s1, t) && s1 == s.(nodes := s1.nodes)
            && s1.nodes == s.nodes[p := s.nodes[p].(dead := dead)]
            && (!dead ==> s1 == s && s.nodes[p].bound.Some?)
  {
    var n := s.nodes[p];
    assert NodeInv(c, s, p);
    if n.Live() && !cut.Above(n.bound.value) {
      KillKeeps(c, s, t, p);
    } else {
      assert s.nodes == s.nodes[p := n];
    }
  }

  lemma CreateKeeps(c: Config, s: State, t: nat, p: Path, i: nat, candidate: Space)
    requires SharedInv(c, s) && p in s.nodes && i < s.nodes[p].arity && p + [i] !in s.nodes
    requires At(c.space, p) == Some(candidate)
    ensures var s1 := Put(s, p + [i], NewNode(ApplyAction(candidate, i)));
            SharedInv(c, s1) && Tolerable(s, s1, t)
  {
    var q := p + [i];
    var s1 := Put(s, q, NewNode(ApplyAction(candidate, i)));
    assert Parent(q) == p && Last(q) == i;
    AtChild(c.space, p, i);
    assert NodeInv(c, s, p);
    assert s.nodes[p].expanded ==> IsChild(s, p, i);
    ChildOutsideTree(s, p, i);
    assert p != q by { assert |p| != |q|; }
    assert NodeInv(c, s1, q);
    OneNodeChanges(c, s, s1, t, q);
  }

  /** Reaching a child for a node whose candidate is known. */
  lemma CutOrCreateKeeps(c: Config, s: State, t: nat, p: Path, i: nat, candidate: Space, cut: Ext)
    requires SharedInv(c, s) && p in s.nodes && i < s.nodes[p].arity && s.cut.Le(cut)
    requires At(c.space, p) == Some(candidate)
    ensures var (s1, dead) := CutOrCreateChild(s, p, i, candidate, cut);
            && SharedInv(c, s1) && Tolerable(s, s1, t) && s1 == s.(nodes := s1.nodes)
            && IsChild(s1, p, i) && s1.nodes[p + [i]].dead == dead
            && (!dead ==> s1.nodes[p + [i]].bound.Some? && ApplyAction(candidate, i).Some?)
            && s1.nodes.Keys == s.nodes.Keys + {p + [i]}
            && (forall q :: q in s.nodes && q != p + [i] ==> s1.nodes[q] == s.nodes[q])
            && (p + [i] !in s.nodes ==> s1.nodes[p + [i]].lock == None)
            && (p + [i] in s.nodes ==> s1.nodes[p + [i]] == s.nodes[p + [i]].(dead := dead))
  {
    AtChild(c.space, p, i);
    var q := p + [i];
    assert p != q by { assert |p| != |q|; }
    if q in s.nodes {
      assert NodeInv(c, s, q);
      CutNodeKeeps(c, s, t, q, cut);
    } else {
      CreateKeeps(c, s, t, p, i, candidate);
      CutNodeKeeps(c, Put(s, q, NewNode(ApplyAction(candidate, i))), t, q, cut);
    }
  }

  // ----- The steps of one worker -----

  /** Locks stay attributed when worker `t` neither takes nor loses one. */
  lemma LocksKept(s: State, s': State, t: nat)
    requires t < |s.workers| && LockInv(s) && Tolerable(s, s', t)
    requires HoldsLock(s.workers[t]) ==> HoldsLock(s'.workers[t]) && s'.workers[t].node == s.workers[t].node
    requires forall p :: p in s'.nodes && s'.nodes[p].lock.Some? ==> p in s.nodes && s.nodes[p].lock == s'.nodes[p].lock
    ensures LockInv(s')
  {
    forall p | p in s'.nodes && s'.nodes[p].lock.Some?
      ensures var u := s'.nodes[p].lock.value;
              u < |s'.workers| && s'.workers[u].node == p && HoldsLock(s'.workers[u])
    {
      assert p in s.nodes && s.nodes[p].lock.Some?;
    }
  }

  /** A step that only moves the worker. */
  lemma MoveKeeps(c: Config, s: State, t: nat, w: Worker)
    requires Inv(c, s) && t < |s.workers| && !HoldsLock(s.workers[t])
    ensures SharedInv(c, With(s, t, w)) && LockInv(With(s, t, w)) && Tolerable(s, With(s, t, w), t)
  {
    var s' := With(s, t, w);
    forall p | p in s'.nodes ensures NodeInv(c, s', p) {
      assert NodeInv(c, s, p);
      NodeInvStable(c, s, s', t, p);
    }
    LocksKept(s, s', t);
  }

  /** A step that applies the cursor's cut to a node, then moves the worker. */
  lemma CutAndMoveKeeps(c: Config, s: State, t: nat, p: Path, w: Worker)
    requires Inv(c, s) && t < |s.workers| && !HoldsLock(s.workers[t]) && p in s.nodes
    requires s.cut.Le(s.workers[t].cut)
    ensures var (s1, dead) := CutNode(s, p, s.workers[t].cut); var s' := With(s1, t, w);
            && SharedInv(c, s') && LockInv(s') && Tolerable(s, s', t)
            && s'.nodes == s.nodes[p := s.nodes[p].(dead := dead)]
            && (!dead ==> s.nodes[p].bound.Some?)
  {
    var (s1, dead) := CutNode(s, p, s.workers[t].cut);
    CutNodeKeeps(c, s, t, p, s.workers[t].cut);
    SharedOnly(c, s1, With(s1, t, w), t);
    LocksKept(s, With(s1, t, w), t);
  }

  /** The shared part of the invariant does not mention the workers. */
  lemma SharedOnly(c: Config, s: State, s': State, t: nat)
    requires SharedInv(c, s) && s'.nodes == s.nodes && s'.taken == s.taken
    requires s'.cut == s.cut && s'.handed == s.handed && s'.stop == s.stop
    requires Tolerable(s, s', t)
    ensures SharedInv(c, s')
  {
    forall p | p in s'.nodes ensures NodeInv(c, s', p) {
      assert NodeInv(c, s, p);
      NodeInvStable(c, s, s', t, p);
    }
  }

  lemma FramesKept(c: Config, s: State, s': State, t: nat, frames: seq<Frame>)
    requires (forall f :: f in frames ==> FrameOk(c, s, f)) && Tolerable(s, s', t)
    ensures forall f :: f in frames ==> FrameOk(c, s', f)
  {
  }

  /** Entering `explore` and loading the cursor. */
  lemma StartSteps(c: Config, s: State, t: nat, pick: nat)
    requires Inv(c, s) && t < |s.workers| && !Blocked(s, t)
    requires var pc := s.workers[t].pc; pc.Outside? || pc.Loop? || pc.LoadEpoch?
    ensures Keeps(c, s, Work(c, s, t, pick), t)
  {
    assert WorkerInv(c, s, t);
    MoveKeeps(c, s, t, Work(c, s, t, pick).workers[t]);
  }

  lemma RootCutStep(c: Config, s: State, t: nat, pick: nat)
    requires Inv(c, s) && t < |s.workers| && s.workers[t].pc.RootCut?
    ensures Keeps(c, s, Work(c, s, t, pick), t)
  {
    assert WorkerInv(c, s, t);
    CutAndMoveKeeps(c, s, t, s.workers[t].node, Work(c, s, t, pick).workers[t]);
  }

  /** The assertions on entry of `select_intree` only fail in two cases. */
  lemma EnterTreeKeeps(c: Config, s: State, t: nat, w: Worker)
    requires Inv(c, s) && t < |s.workers| && !HoldsLock(s.workers[t])
    requires s.cut.Le(w.cut) && w.node in s.nodes && (forall f :: f in w.frames ==> FrameOk(c, s, f))
    requires !s.nodes[w.node].expanded || s.nodes[w.node].Implementation() ==> w.node == []
    requires s.nodes[w.node].dead || s.nodes[w.node].expanded
    ensures Keeps(c, s, EnterTree(s, t, w), t)
  {
    var s' := EnterTree(s, t, w);
    var n := s.nodes[w.node];
    assert NodeInv(c, s, w.node);
    MoveKeeps(c, s, t, s'.workers[t]);
    FramesKept(c, s, s', t, w.frames);
    if n.expanded && !n.Implementation() {
      assert s'.workers[t].frames == w.frames + [InTree(w.node)];
      assert FrameOk(c, s', InTree(w.node));
    }
  }

  lemma RootCheckStep(c: Config, s: State, t: nat, pick: nat)
    requires Inv(c, s) && t < |s.workers| && !Blocked(s, t)
    requires s.workers[t].pc.RootCheck?
    ensures Keeps(c, s, Work(c, s, t, pick), t)
  {
    var w := s.workers[t];
    assert WorkerInv(c, s, t);
    if s.nodes[[]].expanded {
      EnterTreeKeeps(c, s, t, w);
    } else {
      MoveKeeps(c, s, t, w.(pc := ExpandCut));
    }
  }

  lemma ExpandCutStep(c: Config, s: State, t: nat, pick: nat)
    requires Inv(c, s) && t < |s.workers| && !Blocked(s, t)
    requires s.workers[t].pc.ExpandCut?
    ensures Keeps(c, s, Work(c, s, t, pick), t)
  {
    var w := s.workers[t];
    var s' := Work(c, s, t, pick);
    assert WorkerInv(c, s, t);
    CutAndMoveKeeps(c, s, t, w.node, s'.workers[t]);
    FramesKept(c, s, s', t, w.frames);
  }

  lemma TakeKeeps(c: Config, s: State, t: nat, candidate: Space)
    requires Inv(c, s) && t < |s.workers| && s.workers[t].pc.ExpandAcquire?
    requires var p := s.workers[t].node; p in s.nodes && !s.nodes[p].expanded && s.nodes[p].lock == None
    requires s.nodes[s.workers[t].node].candidate == Some(candidate)
    requires InExplicitTree(s, s.workers[t].node)
    ensures SharedInv(c, Acquire(s, t)) && LockInv(Acquire(s, t)) && Tolerable(s, Acquire(s, t), t)
    ensures At(c.space, s.workers[t].node) == Some(candidate)
  {
    var p := s.workers[t].node;
    var n := s.nodes[p];
    var s' := Acquire(s, t);
    assert NodeInv(c, s, p);
    assert p != [] ==> |Parent(p)| < |p|;
    assert Tolerable(s, s', t);
    assert NodeInv(c, s', p) by {
      if n.dead { JustifiedMonotone(s, s', t, p); }
    }
    OneNodeChanges(c, s, s', t, p);
  }

  lemma AcquireStep(c: Config, s: State, t: nat)
    requires Inv(c, s) && t < |s.workers| && !Blocked(s, t)
    requires s.workers[t].pc.ExpandAcquire?
    ensures Keeps(c, s, Acquire(s, t), t)
  {
    var w := s.workers[t];
    assert WorkerInv(c, s, t);
    var n := s.nodes[w.node];
    assert NodeInv(c, s, w.node);
    if !n.expanded && n.candidate.Some? {
      TakeKeeps(c, s, t, n.candidate.value);
      FramesKept(c, s, Acquire(s, t), t, w.frames);
      TakeWorkerInv(c, s, t, n.candidate.value);
    } else {
      var w' := w.(pc := ExpandFailed);
      assert Acquire(s, t) == With(s, t, w');
      MoveKeeps(c, s, t, w');
      FramesKept(c, s, With(s, t, w'), t, w.frames);
    }
  }

  lemma TakeWorkerInv(c: Config, s: State, t: nat, candidate: Space)
    requires t < |s.workers| && s.workers[t].pc.ExpandAcquire? && WorkerInv(c, s, t)
    requires var p := s.workers[t].node; !s.nodes[p].expanded && s.nodes[p].candidate == Some(candidate)
    requires At(c.space, s.workers[t].node) == Some(candidate)
    requires forall f :: f in s.workers[t].frames ==> FrameOk(c, Acquire(s, t), f)
    ensures WorkerInv(c, Acquire(s, t), t)
  {
    assert ExpansionInv(c, Acquire(s, t), t, 0, candidate);
  }

  /** A step that reaches a child, then moves the worker. */
  lemma CutOrCreateAndMoveKeeps(c: Config, s: State, t: nat, p: Path, i: nat, candidate: Space, w: Worker)
    requires Inv(c, s) && t < |s.workers|
    requires HoldsLock(s.workers[t]) ==> HoldsLock(w) && w.node == s.workers[t].node
    requires p in s.nodes && i < s.nodes[p].arity && At(c.space, p) == Some(candidate)
    requires s.cut.Le(s.workers[t].cut)
    ensures var (s1, dead) := CutOrCreateChild(s, p, i, candidate, s.workers[t].cut); var s' := With(s1, t, w);
            && SharedInv(c, s') && LockInv(s') && Tolerable(s, s', t)
            && IsChild(s', p, i) && s'.nodes[p + [i]].dead == dead
            && (!dead ==> s'.nodes[p + [i]].bound.Some?)
            && s'.nodes[p] == s.nodes[p]
  {
    assert p != p + [i] by { assert |p| != |p + [i]|; }
    CutOrCreateKeeps(c, s, t, p, i, candidate, s.workers[t].cut);
    var (s1, dead) := CutOrCreateChild(s, p, i, candidate, s.workers[t].cut);
    OnlyChildChanges(s, s1, p + [i], dead);
    MoveAfter(c, s, s1, t, w);
  }

  /** A child that is cut keeps its lock, and a fresh one has none. */
  lemma OnlyChildChanges(s: State, s1: State, q: Path, dead: bool)
    requires s1.nodes.Keys == s.nodes.Keys + {q}
    requires forall r :: r in s.nodes && r != q ==> s1.nodes[r] == s.nodes[r]
    requires q !in s.nodes ==> s1.nodes[q].lock == None
    requires q in s.nodes ==> s1.nodes[q] == s.nodes[q].(dead := dead)
    ensures forall r :: r in s1.nodes && s1.nodes[r].lock.Some? ==> r in s.nodes && s.nodes[r].lock == s1.nodes[r].lock
  {
  }

  /** A tolerable change of the nodes, then a move of the worker. */
  lemma MoveAfter(c: Config, s: State, s1: State, t: nat, w: Worker)
    requires LockInv(s) && t < |s.workers| && SharedInv(c, s1) && Tolerable(s, s1, t) && s1 == s.(nodes := s1.nodes)
    requires HoldsLock(s.workers[t]) ==> HoldsLock(w) && w.node == s.workers[t].node
    requires forall r :: r in s1.nodes && s1.nodes[r].lock.Some? ==> r in s.nodes && s.nodes[r].lock == s1.nodes[r].lock
    ensures SharedInv(c, With(s1, t, w)) && LockInv(With(s1, t, w)) && Tolerable(s, With(s1, t, w), t)
  {
    SharedOnly(c, s1, With(s1, t, w), t);
    LocksKept(s, With(s1, t, w), t);
  }

  // ----- Expansion -----

  lemma StoredKept(c: Config, s: State, s': State, t: nat, p: Path, i: nat)
    requires p in s.nodes && !s.nodes[p].expanded && Stored(s, p, i) && Tolerable(s, s', t)
    ensures Stored(s', p, i)
  {
    forall j: nat | j < i
      ensures IsChild(s', p, j) && (s'.nodes[p + [j]].dead || s'.nodes[p + [j]].candidate.Some?)
    {
      assert IsChild(s, p, j);
      ChildOutsideTree(s, p, j);
    }
  }

  lemma VisitEdgeStep(c: Config, s: State, t: nat, i: nat, candidate: Space)
    requires Inv(c, s) && t < |s.workers| && s.workers[t].pc == Expanding(i, candidate)
    requires s.workers[t].node in s.nodes && i < s.nodes[s.workers[t].node].arity
    ensures Keeps(c, s, ExpandEdge(s, t, i, candidate), t)
  {
    var w := s.workers[t];
    assert WorkerInv(c, s, t);
    var (s1, dead) := CutOrCreateChild(s, w.node, i, candidate, w.cut);
    var w' := w.(pc := if dead then Expanding(i + 1, candidate) else Storing(i, candidate));
    CutOrCreateAndMoveKeeps(c, s, t, w.node, i, candidate, w');
    VisitMoveInv(c, s, With(s1, t, w'), t, i, candidate);
  }

  /** The worker's own invariant after visiting edge `i` of the node it expands. */
  lemma VisitMoveInv(c: Config, s: State, s': State, t: nat, i: nat, candidate: Space)
    requires t < |s.workers| && t < |s'.workers| && WorkerInv(c, s, t) && s.workers[t].pc == Expanding(i, candidate)
    requires Tolerable(s, s', t) && IsChild(s', s.workers[t].node, i)
    requires
      var w, w' := s.workers[t], s'.workers[t];
      var child := s'.nodes[w.node + [i]];
      && s'.nodes[w.node] == s.nodes[w.node]
      && (|| (w' == w.(pc := Expanding(i + 1, candidate)) && child.dead)
          || (w' == w.(pc := Storing(i, candidate)) && child.bound.Some?))
    ensures WorkerInv(c, s', t)
  {
    var w := s.workers[t];
    LeTrans(s'.cut, s.cut, w.cut);
    FramesKept(c, s, s', t, w.frames);
    StoredKept(c, s, s', t, w.node, i);
    if s'.workers[t].pc.Expanding? {
      assert Stored(s', w.node, i + 1);
      assert ExpansionInv(c, s', t, i + 1, candidate);
    } else {
      assert ExpansionInv(c, s', t, i, candidate);
    }
  }

  /** All edges are visited: the node joins the explicit tree and the lock is released. */
  lemma FinishExpansionStep(c: Config, s: State, t: nat, i: nat, candidate: Space)
    requires Inv(c, s) && t < |s.workers| && s.workers[t].pc == Expanding(i, candidate)
    requires s.workers[t].node in s.nodes && i >= s.nodes[s.workers[t].node].arity
    ensures Keeps(c, s, ExpandEdge(s, t, i, candidate), t)
  {
    var w := s.workers[t];
    var s' := ExpandEdge(s, t, i, candidate);
    assert WorkerInv(c, s, t);
    FinishExpansionShared(c, s, s', t, w.node);
    FramesKept(c, s, s', t, w.frames);
    assert s'.workers[t] == w.(pc := Walk(candidate));
  }

  lemma FinishExpansionShared(c: Config, s: State, s': State, t: nat, p: Path)
    requires SharedInv(c, s) && LockInv(s) && t < |s.workers| && s.workers[t].node == p
    requires p in s.nodes && Stored(s, p, s.nodes[p].arity) && s.nodes[p].lock == Some(t)
    requires |s'.workers| == |s.workers|
    requires s' == s.(nodes := s.nodes[p := s.nodes[p].(expanded := true, lock := None)],
                      workers := s.workers[t := s'.workers[t]])
    ensures SharedInv(c, s') && LockInv(s') && Tolerable(s, s', t)
  {
    assert Tolerable(s, s', t);
    assert NodeInv(c, s, p);
    forall q | q in s'.nodes ensures NodeInv(c, s', q) {
      assert NodeInv(c, s, q);
      FinishedNode(c, s, s', t, p, q);
    }
    forall q | q in s'.nodes && s'.nodes[q].lock.Some?
      ensures var u := s'.nodes[q].lock.value;
              u < |s'.workers| && s'.workers[u].node == q && HoldsLock(s'.workers[u])
    {
      assert q != p && s.nodes[q].lock.Some?;
    }
  }

  lemma FinishedNode(c: Config, s: State, s': State, t: nat, p: Path, q: Path)
    requires q in s.nodes && NodeInv(c, s, q) && Tolerable(s, s', t)
    requires p in s.nodes && NodeInv(c, s, p) && Stored(s, p, s.nodes[p].arity) && s.nodes[p].lock.Some?
    requires s'.nodes == s.nodes[p := s.nodes[p].(expanded := true, lock := None)] && s'.taken == s.taken
    ensures NodeInv(c, s', q)
  {
    assert q != [] ==> |Parent(q)| < |q|;
    if q == p {
      if s.nodes[p].dead { JustifiedMonotone(s, s', t, p); }
      forall i: nat | i < s'.nodes[p].arity ensures IsChild(s', p, i) {
        assert IsChild(s, p, i);
      }
    } else if q != [] && Parent(q) == p && !s.nodes[p].expanded {
      assert q == p + [Last(q)];
      assert IsChild(s, p, Last(q));
      assert s.nodes[q].dead || s.nodes[q].candidate.Some?;
      if s.nodes[q].dead { JustifiedMonotone(s, s', t, q); }
      assert !InExplicitTree(s, q);
    } else {
      NodeInvStable(c, s, s', t, q);
    }
  }

  lemma StoreStep(c: Config, s: State, t: nat, i: nat, candidate: Space)
    requires Inv(c, s) && t < |s.workers| && s.workers[t].pc == Storing(i, candidate)
    ensures Keeps(c, s, StoreCandidate(s, t, i, candidate), t)
  {
    var w := s.workers[t];
    var p, q := w.node, w.node + [i];
    assert WorkerInv(c, s, t);
    AtChild(c.space, p, i);
    assert NodeInv(c, s, q);
    assert ApplyAction(candidate, i).Some?;
    var s' := StoreCandidate(s, t, i, candidate);
    assert p != q by { assert |p| != |q|; }
    ChildOutsideTree(s, p, i);
    assert Parent(q) == p;
    assert Tolerable(s, s', t);
    assert NodeInv(c, s', q) by {
      if s.nodes[q].dead { JustifiedMonotone(s, s', t, q); }
    }
    OneNodeChanges(c, s, s', t, q);
    LocksKept(s, s', t);
    StoredKept(c, s, s', t, p, i);
    FramesKept(c, s, s', t, w.frames);
    assert Stored(s', p, i + 1);
    assert ExpansionInv(c, s', t, i + 1, candidate);
  }

  lemma ExpandFailedStep(c: Config, s: State, t: nat, pick: nat)
    requires Inv(c, s) && t < |s.workers| && s.workers[t].pc.ExpandFailed?
    ensures Keeps(c, s, Work(c, s, t, pick), t)
  {
    var w := s.workers[t];
    assert WorkerInv(c, s, t);
    if w.frames == [] {
      EnterTreeKeeps(c, s, t, w);
    } else {
      RetryKeeps(c, s, t, w);
    }
  }

  lemma RetryKeeps(c: Config, s: State, t: nat, w: Worker)
    requires Inv(c, s) && t < |s.workers| && !HoldsLock(s.workers[t])
    requires s.cut.Le(w.cut) && w.frames != [] && (forall f :: f in w.frames ==> FrameOk(c, s, f))
    ensures Keeps(c, s, With(s, t, Retry(w)), t)
  {
    var s' := With(s, t, Retry(w));
    MoveKeeps(c, s, t, Retry(w));
    FramesKept(c, s, s', t, w.frames);
    assert w.frames[|w.frames| - 1] in w.frames;
  }

  // ----- Rollout -----

  lemma WalkStep(c: Config, s: State, t: nat, candidate: Space)
    requires Inv(c, s) && t < |s.workers| && s.workers[t].pc == Walk(candidate)
    ensures Keeps(c, s, EnterWalk(s, t, candidate), t)
  {
    var w := s.workers[t];
    assert WorkerInv(c, s, t);
    assert NodeInv(c, s, w.node);
    if s.nodes[w.node].Implementation() {
      ImplementationStep(c, s, t, candidate);
    } else {
      var w' := w.(pc := Checking, frames := w.frames + [Rollout(w.node, candidate)]);
      var s' := With(s, t, w');
      assert s' == EnterWalk(s, t, candidate);
      MoveKeeps(c, s, t, w');
      FramesKept(c, s, s', t, w.frames);
      assert FrameOk(c, s', Rollout(w.node, candidate));
    }
  }

  lemma ImplementationStep(c: Config, s: State, t: nat, candidate: Space)
    requires Inv(c, s) && t < |s.workers| && s.workers[t].pc == Walk(candidate)
    requires WorkerInv(c, s, t) && s.nodes[s.workers[t].node].Implementation()
    ensures Keeps(c, s, EnterWalk(s, t, candidate), t)
  {
    var w := s.workers[t];
    assert NodeInv(c, s, w.node);
    if w.cut.Above(s.nodes[w.node].bound.value) && !s.nodes[w.node].dead {
      HandOutStep(c, s, t);
    } else {
      CutAndMoveKeeps(c, s, t, w.node, w.(pc := DeadEnd));
      FramesKept(c, s, EnterWalk(s, t, candidate), t, w.frames);
    }
  }

  lemma HandOutStep(c: Config, s: State, t: nat)
    requires Inv(c, s) && t < |s.workers| && s.workers[t].pc.Walk?
    requires WorkerInv(c, s, t) && s.nodes[s.workers[t].node].Implementation()
    ensures var s' := With(s, t, s.workers[t].(pc := Handing)).(handed := s.handed + {s.workers[t].node});
            Keeps(c, s, s', t)
  {
    var w := s.workers[t];
    var s2 := With(s, t, w.(pc := Handing));
    assert NodeInv(c, s, w.node);
    MoveKeeps(c, s, t, w.(pc := Handing));
    HandKeeps(c, s2, t, w.node);
    FramesKept(c, s, s2.(handed := s.handed + {w.node}), t, w.frames);
  }

  lemma HandKeeps(c: Config, s: State, t: nat, p: Path)
    requires SharedInv(c, s) && p in s.nodes && IsImplementation(c.space, p)
    ensures SharedInv(c, s.(handed := s.handed + {p}))
  {
    var s' := s.(handed := s.handed + {p});
    forall q | q in s'.nodes ensures NodeInv(c, s', q) {
      assert NodeInv(c, s, q);
      assert s'.cut.Le(s.cut);
      NodeInvStable(c, s, s', t, q);
    }
  }

  lemma HandingStep(c: Config, s: State, t: nat, pick: nat)
    requires Inv(c, s) && t < |s.workers| && s.workers[t].pc.Handing?
    ensures Keeps(c, s, Work(c, s, t, pick), t)
  {
    var w := s.workers[t];
    assert WorkerInv(c, s, t);
    assert NodeInv(c, s, w.node);
    KillAndMoveKeeps(c, s, t, w.node, w.(pc := Outside));
  }

  lemma KillAndMoveKeeps(c: Config, s: State, t: nat, p: Path, w: Worker)
    requires Inv(c, s) && t < |s.workers| && !HoldsLock(s.workers[t]) && p in s.nodes && Justified(s, p)
    ensures var s' := With(Kill(s, p), t, w);
            SharedInv(c, s') && LockInv(s') && Tolerable(s, s', t)
  {
    KillKeeps(c, s, t, p);
    SharedOnly(c, Kill(s, p), With(Kill(s, p), t, w), t);
    LocksKept(s, With(Kill(s, p), t, w), t);
  }

  // ----- Descent -----

  lemma LastFrame(c: Config, s: State, w: Worker)
    requires AtFrame(w) && (forall f :: f in w.frames ==> FrameOk(c, s, f))
    ensures FrameOk(c, s, w.frames[|w.frames| - 1])
  {
  }

  lemma LeaveKeepsFrames(c: Config, s: State, w: Worker)
    requires w.frames != [] && (forall f :: f in w.frames ==> FrameOk(c, s, f))
    ensures forall f :: f in LeaveFrame(w).frames ==> FrameOk(c, s, f)
  {
  }

  lemma CheckStep(c: Config, s: State, t: nat)
    requires Inv(c, s) && t < |s.workers| && s.workers[t].frames != []
    requires s.workers[t].pc.Checking? || s.workers[t].pc.CheckingEpoch? || s.workers[t].pc.CheckingNode?
    ensures Keeps(c, s, Check(s, t), t)
  {
    var w := s.workers[t];
    var s' := Check(s, t);
    assert WorkerInv(c, s, t);
    MoveKeeps(c, s, t, s'.workers[t]);
    FramesKept(c, s, s', t, w.frames);
    LeaveKeepsFrames(c, s', w);
    assert Scanned(s', w.node, 0, [], []);
  }

  lemma CutHereStep(c: Config, s: State, t: nat, pick: nat)
    requires Inv(c, s) && t < |s.workers| && s.workers[t].pc.CutHere?
    ensures Keeps(c, s, Work(c, s, t, pick), t)
  {
    var w := s.workers[t];
    assert WorkerInv(c, s, t);
    var (s1, dead) := CutNode(s, w.node, w.cut);
    var w' := if dead then LeaveFrame(w) else w.(pc := Scanning(0, [], []));
    CutAndMoveKeeps(c, s, t, w.node, w');
    var s' := With(s1, t, w');
    FramesKept(c, s, s', t, w.frames);
    if dead {
      LeaveKeepsFrames(c, s', w);
    } else {
      assert Scanned(s', w.node, 0, [], []);
    }
  }

  lemma RefreshStep(c: Config, s: State, t: nat, pick: nat)
    requires Inv(c, s) && t < |s.workers| && s.workers[t].pc.Refreshing?
    ensures Keeps(c, s, Work(c, s, t, pick), t)
  {
    var w := s.workers[t];
    var w' := w.(pc := CutHere, cut := s.cut);
    assert WorkerInv(c, s, t);
    MoveKeeps(c, s, t, w');
    FramesKept(c, s, With(s, t, w'), t, w.frames);
  }

  lemma DeadEndStep(c: Config, s: State, t: nat, pick: nat)
    requires Inv(c, s) && t < |s.workers| && s.workers[t].pc.DeadEnd?
    ensures Keeps(c, s, Work(c, s, t, pick), t)
  {
    var w := s.workers[t];
    assert WorkerInv(c, s, t);
    if w.frames == [] || !c.backtrack {
      MoveKeeps(c, s, t, w.(pc := Loop));
    } else {
      RetryKeeps(c, s, t, w);
    }
  }

  lemma ScannedKept(s: State, s': State, t: nat, p: Path, i: nat, live: seq<nat>, expanded: seq<nat>)
    requires Scanned(s, p, i, live, expanded) && Tolerable(s, s', t)
    ensures Scanned(s', p, i, live, expanded)
  {
    forall j: nat | j < i
      ensures IsChild(s', p, j) && (s'.nodes[p + [j]].dead || j in live || j in expanded)
    {
      assert IsChild(s, p, j);
    }
    forall j | j in live ensures j < i && IsChild(s', p, j) && s'.nodes[p + [j]].bound.Some? {
      assert IsChild(s, p, j);
    }
    forall j | j in expanded ensures j < i && IsChild(s', p, j) && s'.nodes[p + [j]].expanded {
      assert IsChild(s, p, j);
    }
  }

  /** Edge `i` was visited and its child is dead or listed. */
  lemma ScannedExtend(s: State, p: Path, i: nat, live: seq<nat>, expanded: seq<nat>, live': seq<nat>)
    requires Scanned(s, p, i, live, expanded) && IsChild(s, p, i)
    requires (live' == live && s.nodes[p + [i]].dead) || (live' == live + [i] && s.nodes[p + [i]].bound.Some?)
    ensures Scanned(s, p, i + 1, live', expanded)
  {
  }

  lemma ScanInTreeStep(c: Config, s: State, t: nat, i: nat, live: seq<nat>, expanded: seq<nat>, pick: nat)
    requires Inv(c, s) && t < |s.workers| && s.workers[t].pc == Scanning(i, live, expanded)
    requires AtFrame(s.workers[t]) && s.workers[t].frames[|s.workers[t].frames| - 1].InTree?
    requires i < Get(s, s.workers[t].node).arity
    ensures Keeps(c, s, Scan(s, t, i, live, expanded, pick), t)
  {
    var w := s.workers[t];
    var p := w.node;
    assert WorkerInv(c, s, t);
    LastFrame(c, s, w);
    assert NodeInv(c, s, p);
    assert IsChild(s, p, i);
    var (s1, dead) := CutNode(s, p + [i], w.cut);
    var w' := w.(pc := if dead then Scanning(i + 1, live, expanded) else Sorting(i, live, expanded));
    assert Scan(s, t, i, live, expanded, pick) == With(s1, t, w');
    CutAndMoveKeeps(c, s, t, p + [i], w');
    ScanMoveInv(c, s, With(s1, t, w'), t, i, live, expanded, live);
  }

  /** The worker's own invariant after visiting edge `i`. */
  lemma ScanMoveInv(c: Config, s: State, s': State, t: nat, i: nat, live: seq<nat>, expanded: seq<nat>, live': seq<nat>)
    requires t < |s.workers| && t < |s'.workers| && WorkerInv(c, s, t) && s.workers[t].pc == Scanning(i, live, expanded)
    requires Tolerable(s, s', t) && AtFrame(s.workers[t]) && IsChild(s', s.workers[t].node, i)
    requires
      var w, w' := s.workers[t], s'.workers[t];
      var child := s'.nodes[w.node + [i]];
      || (w' == w.(pc := Scanning(i + 1, live', expanded)) &&
          ((live' == live && child.dead) || (live' == live + [i] && child.bound.Some?)))
      || (w' == w.(pc := Sorting(i, live, expanded)) && child.bound.Some? && w.frames[|w.frames| - 1].InTree?)
    ensures WorkerInv(c, s', t)
  {
    var w := s.workers[t];
    LeTrans(s'.cut, s.cut, w.cut);
    FramesKept(c, s, s', t, w.frames);
    ScannedKept(s, s', t, w.node, i, live, expanded);
    if s'.workers[t].pc.Scanning? {
      ScannedExtend(s', w.node, i, live, expanded, live');
    }
  }

  lemma ScanRolloutStep(c: Config, s: State, t: nat, i: nat, live: seq<nat>, expanded: seq<nat>, pick: nat)
    requires Inv(c, s) && t < |s.workers| && s.workers[t].pc == Scanning(i, live, expanded)
    requires AtFrame(s.workers[t]) && s.workers[t].frames[|s.workers[t].frames| - 1].Rollout?
    requires i < Get(s, s.workers[t].node).arity
    ensures Keeps(c, s, Scan(s, t, i, live, expanded, pick), t)
  {
    var w := s.workers[t];
    var candidate := w.frames[|w.frames| - 1].candidate;
    assert WorkerInv(c, s, t);
    LastFrame(c, s, w);
    var (s1, dead) := CutOrCreateChild(s, w.node, i, candidate, w.cut);
    var live' := if dead then live else live + [i];
    var w' := w.(pc := Scanning(i + 1, live', expanded));
    CutOrCreateAndMoveKeeps(c, s, t, w.node, i, candidate, w');
    ScanMoveInv(c, s, With(s1, t, w'), t, i, live, expanded, live');
  }

  lemma SortStep(c: Config, s: State, t: nat, i: nat, live: seq<nat>, expanded: seq<nat>)
    requires Inv(c, s) && t < |s.workers| && s.workers[t].pc == Sorting(i, live, expanded)
    ensures Keeps(c, s, Sort(s, t, i, live, expanded), t)
  {
    var w := s.workers[t];
    assert WorkerInv(c, s, t);
    var isExpanded := s.nodes[w.node + [i]].expanded;
    var live' := if isExpanded then live else live + [i];
    var expanded' := if isExpanded then expanded + [i] else expanded;
    var w' := w.(pc := Scanning(i + 1, live', expanded'));
    MoveKeeps(c, s, t, w');
    FramesKept(c, s, With(s, t, w'), t, w.frames);
    SortedExtend(s, With(s, t, w'), w.node, i, live, expanded, live', expanded');
  }

  lemma SortedExtend(s: State, s': State, p: Path, i: nat, live: seq<nat>, expanded: seq<nat>, live': seq<nat>, expanded': seq<nat>)
    requires Scanned(s, p, i, live, expanded) && IsChild(s, p, i) && s'.nodes == s.nodes
    requires s.nodes[p + [i]].bound.Some?
    requires
      || (live' == live && expanded' == expanded + [i] && s.nodes[p + [i]].expanded)
      || (live' == live + [i] && expanded' == expanded)
    ensures Scanned(s', p, i + 1, live', expanded')
  {
    forall j: nat | j < i + 1
      ensures IsChild(s', p, j) && (s'.nodes[p + [j]].dead || j in live' || j in expanded')
    {
      assert IsChild(s, p, j);
    }
    forall j | j in live' ensures j < i + 1 && IsChild(s', p, j) && s'.nodes[p + [j]].bound.Some? {
      assert IsChild(s, p, j);
    }
    forall j | j in expanded' ensures j < i + 1 && IsChild(s', p, j) && s'.nodes[p + [j]].expanded {
      assert IsChild(s, p, j);
    }
  }

  /** A live child is selected: it is expanded, or the rollout moves to it. */
  lemma SelectLiveStep(c: Config, s: State, t: nat, i: nat, live: seq<nat>, expanded: seq<nat>, pick: nat)
    requires Inv(c, s) && t < |s.workers| && s.workers[t].pc == Scanning(i, live, expanded)
    requires s.workers[t].frames != [] && live != []
    ensures Keeps(c, s, Select(s, t, live, expanded, pick), t)
  {
    var w := s.workers[t];
    var j := live[pick % |live|];
    assert WorkerInv(c, s, t);
    LastFrame(c, s, w);
    assert j in live && IsChild(s, w.node, j);
    match w.frames[|w.frames| - 1] {
      case InTree(_) => SelectForExpansion(c, s, t, j);
      case Rollout(_, candidate) =>
        assert NodeInv(c, s, w.node) && NodeInv(c, s, w.node + [j]);
        AtChild(c.space, w.node, j);
        MoveTo(c, s, t, j, Walk(ApplyAction(candidate, j).value));
    }
  }

  lemma SelectForExpansion(c: Config, s: State, t: nat, j: nat)
    requires Inv(c, s) && t < |s.workers| && s.workers[t].pc.Scanning? && WorkerInv(c, s, t)
    requires IsChild(s, s.workers[t].node, j) && s.nodes[s.workers[t].node].expanded && s.workers[t].frames != []
    ensures Keeps(c, s, With(s, t, s.workers[t].(pc := ExpandCut, node := s.workers[t].node + [j])), t)
  {
    assert Parent(s.workers[t].node + [j]) == s.workers[t].node;
    MoveTo(c, s, t, j, ExpandCut);
  }

  lemma MoveTo(c: Config, s: State, t: nat, j: nat, pc: Pc)
    requires Inv(c, s) && t < |s.workers| && s.workers[t].pc.Scanning? && WorkerInv(c, s, t)
    requires IsChild(s, s.workers[t].node, j) && s.workers[t].frames != []
    requires
      var p := s.workers[t].node + [j];
      (pc == ExpandCut && InExplicitTree(s, p)) || (pc.Walk? && At(c.space, p) == Some(pc.candidate))
    ensures Keeps(c, s, With(s, t, s.workers[t].(pc := pc, node := s.workers[t].node + [j])), t)
  {
    var w' := s.workers[t].(pc := pc, node := s.workers[t].node + [j]);
    MoveKeeps(c, s, t, w');
    FramesKept(c, s, With(s, t, w'), t, w'.frames);
  }

  lemma SelectExpandedStep(c: Config, s: State, t: nat, i: nat, live: seq<nat>, expanded: seq<nat>, pick: nat)
    requires Inv(c, s) && t < |s.workers| && s.workers[t].pc == Scanning(i, live, expanded)
    requires s.workers[t].frames != [] && live == [] && expanded != []
    ensures Keeps(c, s, Select(s, t, live, expanded, pick), t)
  {
    var w := s.workers[t];
    var j := expanded[pick % |expanded|];
    assert WorkerInv(c, s, t);
    assert j in expanded && IsChild(s, w.node, j);
    if s.nodes[w.node + [j]].Implementation() {
      RetryKeeps(c, s, t, w);
    } else {
      assert NodeInv(c, s, w.node + [j]);
      EnterTreeKeeps(c, s, t, w.(node := w.node + [j]));
    }
  }

  /** No child is left: all of them are dead, which justifies the kill. */
  lemma BacktrackStep(c: Config, s: State, t: nat, i: nat)
    requires Inv(c, s) && t < |s.workers| && s.workers[t].pc == Scanning(i, [], [])
    requires s.workers[t].frames != [] && i >= Get(s, s.workers[t].node).arity
    ensures Keeps(c, s, With(Kill(s, s.workers[t].node), t, s.workers[t].(pc := Checking)), t)
  {
    var w := s.workers[t];
    var p := w.node;
    assert WorkerInv(c, s, t);
    LastFrame(c, s, w);
    assert Justified(s, p) by {
      forall j: nat | j < s.nodes[p].arity ensures IsChild(s, p, j) && s.nodes[p + [j]].dead {
      }
    }
    KillAndMoveKeeps(c, s, t, p, w.(pc := Checking));
    FramesKept(c, s, With(Kill(s, p), t, w.(pc := Checking)), t, w.frames);
  }

  // ----- All steps -----

  lemma WorkKeeps(c: Config, s: State, t: nat, pick: nat)
    requires Inv(c, s) && t < |s.workers| && !Blocked(s, t)
    requires !s.workers[t].pc.Finished? && !s.workers[t].pc.Panicked?
    ensures Keeps(c, s, Work(c, s, t, pick), t)
  {
    var w := s.workers[t];
    assert WorkerInv(c, s, t);
    match w.pc {
      case Outside => StartSteps(c, s, t, pick);
      case Loop => StartSteps(c, s, t, pick);
      case LoadEpoch => StartSteps(c, s, t, pick);
      case RootCut => RootCutStep(c, s, t, pick);
      case RootCheck => RootCheckStep(c, s, t, pick);
      case ExpandCut => ExpandCutStep(c, s, t, pick);
      case ExpandAcquire => AcquireStep(c, s, t);
      case Expanding(i, candidate) =>
        if i < s.nodes[w.node].arity {
          VisitEdgeStep(c, s, t, i, candidate);
        } else {
          FinishExpansionStep(c, s, t, i, candidate);
        }
      case Storing(i, candidate) => StoreStep(c, s, t, i, candidate);
      case ExpandFailed => ExpandFailedStep(c, s, t, pick);
      case Walk(candidate) => WalkStep(c, s, t, candidate);
      case Handing => HandingStep(c, s, t, pick);
      case Checking => CheckStep(c, s, t);
      case CheckingEpoch => CheckStep(c, s, t);
      case CheckingNode => CheckStep(c, s, t);
      case Refreshing => RefreshStep(c, s, t, pick);
      case CutHere => CutHereStep(c, s, t, pick);
      case Scanning(i, live, expanded) => ScanningStep(c, s, t, i, live, expanded, pick);
      case Sorting(i, live, expanded) => SortStep(c, s, t, i, live, expanded);
      case DeadEnd => DeadEndStep(c, s, t, pick);
    }
  }

  lemma ScanningStep(c: Config, s: State, t: nat, i: nat, live: seq<nat>, expanded: seq<nat>, pick: nat)
    requires Inv(c, s) && t < |s.workers| && s.workers[t].pc == Scanning(i, live, expanded)
    requires AtFrame(s.workers[t])
    ensures Keeps(c, s, Scan(s, t, i, live, expanded, pick), t)
  {
    var w := s.workers[t];
    if i < Get(s, w.node).arity {
      if w.frames[|w.frames| - 1].InTree? {
        ScanInTreeStep(c, s, t, i, live, expanded, pick);
      } else {
        ScanRolloutStep(c, s, t, i, live, expanded, pick);
      }
    } else if live != [] {
      SelectLiveStep(c, s, t, i, live, expanded, pick);
    } else if expanded != [] {
      SelectExpandedStep(c, s, t, i, live, expanded, pick);
    } else {
      BacktrackStep(c, s, t, i);
    }
  }

  lemma InvFromKeeps(c: Config, s: State, s': State, t: nat)
    requires Inv(c, s) && t < |s.workers| && Keeps(c, s, s', t)
    ensures Inv(c, s')
  {
    forall u | 0 <= u < |s'.workers| ensures WorkerInv(c, s', u) {
      if u != t {
        assert WorkerInv(c, s, u);
        OthersKeepInv(c, s, s', t, u);
      }
    }
  }

  // ----- The environment -----

  lemma EnvironmentKeeps(c: Config, s: State, s': State)
    requires Inv(c, s) && SharedInv(c, s') && s'.workers == s.workers
    requires Tolerable(s, s', |s.workers|)
    requires forall p :: p in s'.nodes ==> p in s.nodes && s'.nodes[p].lock == s.nodes[p].lock
    ensures Inv(c, s')
  {
    forall u | 0 <= u < |s'.workers| ensures WorkerInv(c, s', u) {
      assert WorkerInv(c, s, u);
      OthersKeepInv(c, s, s', |s.workers|, u);
    }
  }

  lemma CutOrStopKeeps(c: Config, s: State, s': State)
    requires Inv(c, s) && s'.cut.Le(s.cut) && (s.stop ==> s'.stop)
    requires s' == s.(cut := s'.cut, epoch := s'.epoch, stop := s'.stop)
    ensures Inv(c, s')
  {
    forall p | p in s'.nodes ensures NodeInv(c, s', p) {
      assert NodeInv(c, s, p);
      NodeInvStable(c, s, s', |s.workers|, p);
    }
    EnvironmentKeeps(c, s, s');
  }

  lemma ClearKeeps(c: Config, s: State, p: Path)
    requires Inv(c, s) && p in s.nodes && s.nodes[p].dead
    ensures Inv(c, Put(s, p, s.nodes[p].(candidate := None)))
  {
    var s' := Put(s, p, s.nodes[p].(candidate := None));
    assert NodeInv(c, s, p);
    assert Tolerable(s, s', |s.workers|);
    assert p != [] ==> |Parent(p)| < |p|;
    assert NodeInv(c, s', p) by {
      JustifiedMonotone(s, s', |s.workers|, p);
      if s.nodes[p].expanded {
        forall i: nat | i < s'.nodes[p].arity ensures IsChild(s', p, i) {
          assert IsChild(s, p, i);
        }
      }
    }
    OneNodeChanges(c, s, s', |s.workers|, p);
    EnvironmentKeeps(c, s, s');
  }

  lemma RestartKeeps(c: Config, s: State)
    requires Inv(c, s)
    requires forall t :: 0 <= t < |s.workers| ==> s.workers[t].pc.Outside? || s.workers[t].pc.Finished?
    ensures Inv(c, Restarted(c, s))
  {
    var s' := Restarted(c, s);
    forall p | p in s'.nodes ensures NodeInv(c, s', p) {
      assert NodeInv(c, s, p);
      assert s.nodes[p].lock == None;
      if s.nodes[p].dead { RestartJustified(c, s, p); }
      assert !InExplicitTree(s', p) || p == [];
    }
    forall t | 0 <= t < |s'.workers| ensures WorkerInv(c, s', t) {
      assert WorkerInv(c, s, t);
    }
  }

  lemma RestartJustified(c: Config, s: State, p: Path)
    requires p in s.nodes && Justified(s, p) && [] in s.nodes
    ensures Justified(Restarted(c, s), p)
  {
    var s' := Restarted(c, s);
    var n := s.nodes[p];
    if n.arity > 0 && forall i: nat :: i < n.arity ==> IsChild(s, p, i) && s.nodes[p + [i]].dead {
      forall i: nat | i < n.arity ensures IsChild(s', p, i) && s'.nodes[p + [i]].dead {
        assert IsChild(s, p, i);
      }
    }
  }

  lemma InitInv(c: Config, s: State)
    requires Init(c, s)
    ensures Inv(c, s)
  {
    assert NodeInv(c, s, []);
    forall t | 0 <= t < |s.workers| ensures WorkerInv(c, s, t) {
    }
  }

  lemma NextKeepsInv(c: Config, s: State, e: Event, s': State)
    requires Inv(c, s) && Next(c, s, e, s')
    ensures Inv(c, s')
  {
    match e {
      case Worked(t, pick) =>
        if !s.workers[t].pc.Finished? && !s.workers[t].pc.Panicked? {
          WorkKeeps(c, s, t, pick);
          InvFromKeeps(c, s, s', t);
        }
      case UpdateCut(cut) => CutOrStopKeeps(c, s, s');
      case Stop => CutOrStopKeeps(c, s, s');
      case Clear(p) => ClearKeeps(c, s, p);
      case Restart => RestartKeeps(c, s);
    }
  }

  lemma {:induction false} RunInv(c: Config, run: seq<State>, events: seq<Event>, i: nat)
    requires Run(c, run, events) && i < |run|
    ensures Inv(c, run[i])
  {
    if i == 0 {
      InitInv(c, run[0]);
    } else {
      RunInv(c, run, events, i - 1);
      NextKeepsInv(c, run[i - 1], events[i - 1], run[i - 1 + 1]);
    }
  }
}
