/**
 A worker that searches alone ends, and has then handed out every implementation whose bound
 stayed below the cut. Cuts may be published and dead candidates dropped at any time.
 */
module SearchAlone {
  import opened Wrappers
  import opened Extended
  import opened SearchTree
  import opened SearchInvariant
  import opened SearchSteps
  import opened SearchTheorems
  import opened SearchPruning
  import opened SearchMeasure

  // ----- What holds when the others are idle -----

  predicate IsIdle(w: Worker) {
    w.pc.Outside? || w.pc.Finished?
  }

  ghost predicate OthersIdle(s: State, t: nat) {
    forall u :: 0 <= u < |s.workers| && u != t ==> IsIdle(s.workers[u])
  }

  predicate AtImplementation(w: Worker, p: Path) {
    w.node == p && (w.pc.Walk? || w.pc.Handing?)
  }

  /** An implementation in the explicit tree is dead, or on its way to be handed out. */
  ghost predicate ImplementationsLeave(s: State, w: Worker) {
    forall p :: p in s.nodes && s.nodes[p].expanded && s.nodes[p].Live() && s.nodes[p].arity == 0 ==> AtImplementation(w, p)
  }

  /** Within a descent, the k-th frame lies at least k actions deep. */
  ghost predicate FramesDeep(w: Worker) {
    w.pc.Outside? || w.pc.Loop? || forall k :: 0 <= k < |w.frames| ==> k <= |w.frames[k].node|
  }

  predicate ToExpand(s: State, p: Path) {
    Alive(s, p) && !s.nodes[p].expanded
  }

  predicate MayDescend(w: Worker) {
    |w.frames| <= |w.node|
  }

  /** The children found are still alive, and those found in the tree are still to be expanded. */
  ghost predicate Listed(s: State, w: Worker, live: seq<nat>, expanded: seq<nat>) {
    && w.frames != []
    && (forall j :: j in live ==> Alive(s, w.node + [j]))
    && (forall j :: j in live && w.frames[|w.frames| - 1].InTree? ==> ToExpand(s, w.node + [j]))
    && (forall j :: j in expanded ==> Alive(s, w.node + [j]))
  }

  ghost predicate AlonePc(s: State, w: Worker) {
    match w.pc
    case RootCheck => Alive(s, w.node)
    case ExpandCut => ToExpand(s, w.node) && MayDescend(w)
    case ExpandAcquire => ToExpand(s, w.node) && MayDescend(w)
    case Expanding(_, _) => Alive(s, w.node) && MayDescend(w)
    case Storing(i, _) => Alive(s, w.node) && MayDescend(w)
    case Walk(_) => Alive(s, w.node) && MayDescend(w)
    case Handing => Alive(s, w.node)
    case Scanning(_, live, expanded) => Alive(s, w.node) && Listed(s, w, live, expanded)
    case Sorting(i, live, expanded) => Alive(s, w.node) && Listed(s, w, live, expanded) && Alive(s, w.node + [i])
    case ExpandFailed => false
    case DeadEnd => !Alive(s, w.node)
    case Panicked(_) => false
    case _ => true
  }

  ghost predicate Alone(c: Config, s: State, t: nat) {
    && t < |s.workers| && Inv(c, s) && PruneInv(c, s.workers[t])
    && OthersIdle(s, t) && ImplementationsLeave(s, s.workers[t])
    && FramesDeep(s.workers[t]) && AlonePc(s, s.workers[t])
  }

  /** What is left falls: something is settled, or the way gets shorter. */
  ghost predicate Falls(c: Config, s: State, s': State, t: nat) {
    && t < |s.workers| && t < |s'.workers|
    && (Unsettled(c, s') < Unsettled(c, s) || Way(c, s', s'.workers[t]) < Way(c, s, s.workers[t]))
  }

  /** What one step of the worker establishes. */
  ghost predicate Advances(c: Config, s: State, s': State, t: nat) {
    && Falls(c, s, s', t) && ImplementationsLeave(s', s'.workers[t])
    && FramesDeep(s'.workers[t]) && AlonePc(s', s'.workers[t])
  }

  // ----- Nobody waits -----

  lemma NoLock(c: Config, s: State, t: nat, p: Path)
    requires Inv(c, s) && OthersIdle(s, t) && t < |s.workers| && !HoldsLock(s.workers[t]) && p in s.nodes
    ensures s.nodes[p].lock == None
  {
    if s.nodes[p].lock.Some? {
      assert false;
    }
  }

  lemma NeverWaits(c: Config, s: State, t: nat)
    requires Alone(c, s, t)
    ensures !Blocked(s, t)
  {
    var w := s.workers[t];
    if Blocked(s, t) {
      var p := if w.pc.Sorting? then w.node + [w.pc.edge] else w.node;
      assert p in s.nodes;
      NoLock(c, s, t, p);
      assert false;
    }
  }

  // ----- Facts the steps share -----

  lemma AliveIsPlace(c: Config, s: State, p: Path)
    requires SharedInv(c, s) && Alive(s, p)
    ensures At(c.space, p).Some? && s.nodes[p].bound == Some(At(c.space, p).value.bound)
    ensures s.nodes[p].arity == |At(c.space, p).value.children| < SizeAt(c.space, p)
    ensures |p| + SizeAt(c.space, p) <= Size(c.space)
  {
    assert NodeInv(c, s, p);
    DepthBound(c.space, p);
  }

  /** A live node whose bound is below the cut survives it. */
  lemma Survives(c: Config, s: State, p: Path, cut: Ext)
    requires SharedInv(c, s) && Alive(s, p) && Passes(c, cut, p)
    ensures CutNode(s, p, cut) == (s, false)
  {
    assert NodeInv(c, s, p);
  }

  /** Killing a live node settles it. */
  lemma KillSettles(c: Config, s: State, s': State, p: Path)
    requires SharedInv(c, s) && Alive(s, p) && DeadAt(s', p) && Settles(s, s')
    ensures Unsettled(c, s') < Unsettled(c, s)
  {
    AliveIsPlace(c, s, p);
    UnsettledFalls(c, s, s');
  }

  lemma StepsFit(c: Config, s: State, p: Path, pc: Pc)
    requires SharedInv(c, s) && Alive(s, p)
    ensures StepsAt(s.nodes[p].arity, pc) < Width(Size(c.space))
  {
    AliveIsPlace(c, s, p);
  }

  /** A move within a live node. */
  lemma SameNode(c: Config, s: State, s': State, w: Worker, w': Worker)
    requires SharedInv(c, s) && Alive(s, w.node) && w'.node == w.node && Alive(s', w.node)
    requires s'.nodes[w.node].arity == s.nodes[w.node].arity
    requires StepsAt(s.nodes[w.node].arity, w'.pc) < StepsAt(s.nodes[w.node].arity, w.pc)
    requires !Starting(w.pc) && !Starting(w'.pc) && !w.pc.DeadEnd? && !w'.pc.DeadEnd? && !Ended(w.pc)
    ensures Way(c, s', w') < Way(c, s, w)
  {
  }

  /** A move from a live node to a live child. */
  lemma ToChild(c: Config, s: State, w: Worker, w': Worker, i: nat)
    requires SharedInv(c, s) && Alive(s, w.node) && w'.node == w.node + [i] && Alive(s, w'.node)
    requires !Starting(w.pc) && !Starting(w'.pc) && !w.pc.DeadEnd? && !w'.pc.DeadEnd? && !Ended(w.pc) && !Ended(w'.pc)
    ensures Way(c, s, w') < Way(c, s, w)
  {
    var size := Size(c.space);
    AliveIsPlace(c, s, w'.node);
    SizeAtChild(c.space, w.node, i);
    StepsFit(c, s, w'.node, w'.pc);
    DownFalls(size, SizeAt(c.space, w.node), StepsAt(s.nodes[w.node].arity, w.pc),
              SizeAt(c.space, w'.node), StepsAt(s.nodes[w'.node].arity, w'.pc));
  }

  /** Going up ends at a live node or where the descent starts. */
  lemma UpThenDown(c: Config, s: State, w: Worker, w': Worker)
    requires SharedInv(c, s) && !Starting(w.pc) && !Ended(w.pc) && (w.pc.DeadEnd? || !Alive(s, w.node))
    requires Starting(w'.pc) || (Alive(s, w'.node) && !w'.pc.DeadEnd?)
    ensures Way(c, s, w') < Way(c, s, w)
  {
    var size := Size(c.space);
    if Starting(w'.pc) {
      DownFalls(size, size + 2, 6 * |w.frames| + StepsUp(w.pc), size + 1, StepsToStart(w'.pc));
    } else if !Ended(w'.pc) {
      AliveIsPlace(c, s, w'.node);
      StepsFit(c, s, w'.node, w'.pc);
      DownFalls(size, size + 2, 6 * |w.frames| + StepsUp(w.pc),
                SizeAt(c.space, w'.node), StepsAt(s.nodes[w'.node].arity, w'.pc));
    } else {
      DownFalls(size, size + 2, 6 * |w.frames| + StepsUp(w.pc), 0, 0);
    }
  }

  lemma SameNodes(c: Config, s: State, s': State)
    requires s'.nodes == s.nodes
    ensures Unsettled(c, s') == Unsettled(c, s)
  {
    assert NotDead(c, s') == NotDead(c, s) && NotExpanded(c, s') == NotExpanded(c, s);
  }

  /** The tree after a cut was applied to one node. */
  ghost predicate CutAt(c: Config, s: State, s1: State, p: Path, dead: bool) {
    && p in s.nodes && s1.nodes == s.nodes[p := s.nodes[p].(dead := dead)]
    && (!dead ==> Alive(s, p))
    && (dead && Alive(s, p) ==> Unsettled(c, s1) < Unsettled(c, s))
  }

  lemma CutIsAt(c: Config, s: State, p: Path, cut: Ext, t: nat, w: Worker)
    requires SharedInv(c, s) && p in s.nodes && t < |s.workers|
    ensures var (s1, dead) := CutNode(s, p, cut); CutAt(c, s, With(s1, t, w), p, dead)
  {
    var (s1, dead) := CutNode(s, p, cut);
    SameNodes(c, s1, With(s1, t, w));
    assert NodeInv(c, s, p);
    assert s.nodes == s.nodes[p := s.nodes[p]];
    if dead && Alive(s, p) {
      KillSettles(c, s, s1, p);
    }
  }

  lemma CutStillLeaves(c: Config, s: State, s1: State, p: Path, dead: bool, w: Worker, w': Worker)
    requires CutAt(c, s, s1, p, dead) && ImplementationsLeave(s, w) && !w.pc.Walk? && !w.pc.Handing?
    ensures ImplementationsLeave(s1, w')
  {
    StillLeave(s, s1, w, w');
  }

  /** No implementation joins the explicit tree, and the worker leaves none behind. */
  lemma StillLeave(s: State, s': State, w: Worker, w': Worker)
    requires ImplementationsLeave(s, w)
    requires forall p :: p in s'.nodes && s'.nodes[p].expanded && s'.nodes[p].Live() ==>
               p in s.nodes && s.nodes[p].expanded && s.nodes[p].Live() && s'.nodes[p].arity == s.nodes[p].arity
    requires !w.pc.Walk? && !w.pc.Handing?
    ensures ImplementationsLeave(s', w')
  {
  }

  // ----- The start of a descent -----

  lemma StartAdvances(c: Config, s: State, t: nat, pick: nat)
    requires Alone(c, s, t)
    requires var pc := s.workers[t].pc; pc.Outside? || pc.Loop? || pc.LoadEpoch?
    ensures Advances(c, s, Work(c, s, t, pick), t)
  {
    var s' := Work(c, s, t, pick);
    StillLeave(s, s', s.workers[t], s'.workers[t]);
  }

  lemma RootCutAdvances(c: Config, s: State, t: nat, pick: nat)
    requires Alone(c, s, t) && s.workers[t].pc.RootCut?
    ensures Advances(c, s, Work(c, s, t, pick), t)
  {
    var w := s.workers[t];
    var (s1, dead) := CutNode(s, w.node, w.cut);
    var w' := w.(pc := if dead then Finished(false) else RootCheck);
    assert WorkerInv(c, s, t);
    CutIsAt(c, s, w.node, w.cut, t, w');
    CutStillLeaves(c, s, With(s1, t, w'), w.node, dead, w, w');
    if dead {
      RootIsDead(c, s, With(s1, t, w'), w, w');
    } else {
      assert s1 == s;
      RootIsLive(c, s, With(s1, t, w'), w, w');
    }
  }

  lemma RootIsDead(c: Config, s: State, s': State, w: Worker, w': Worker)
    requires w.pc.RootCut? && w'.pc.Finished?
    ensures Way(c, s', w') < Way(c, s, w)
  {
    DownFalls(Size(c.space), Size(c.space) + 1, 0, 0, 0);
  }

  lemma RootIsLive(c: Config, s: State, s': State, w: Worker, w': Worker)
    requires SharedInv(c, s) && Alive(s, w.node) && s'.nodes == s.nodes
    requires w.pc.RootCut? && w' == w.(pc := RootCheck)
    ensures Way(c, s', w') < Way(c, s, w)
  {
    var size := Size(c.space);
    AliveIsPlace(c, s, w.node);
    StepsFit(c, s, w.node, RootCheck);
    DownFalls(size, size + 1, 0, SizeAt(c.space, w.node), StepsAt(s.nodes[w.node].arity, RootCheck));
  }

  /** The tree is entered at a live expanded node, which is no implementation. */
  lemma EnterTreeAlone(c: Config, s: State, t: nat, w: Worker)
    requires Alone(c, s, t) && Alive(s, w.node) && s.nodes[w.node].expanded && FramesDeep(w) && MayDescend(w)
    requires !s.workers[t].pc.Walk? && !s.workers[t].pc.Handing? && !Starting(w.pc)
    ensures EnterTree(s, t, w) == With(s, t, w.(pc := Checking, frames := w.frames + [InTree(w.node)]))
    ensures FramesDeep(EnterTree(s, t, w).workers[t]) && AlonePc(EnterTree(s, t, w), EnterTree(s, t, w).workers[t])
    ensures ImplementationsLeave(EnterTree(s, t, w), EnterTree(s, t, w).workers[t])
  {
    if s.nodes[w.node].arity == 0 {
      assert false;
    }
    StillLeave(s, EnterTree(s, t, w), s.workers[t], EnterTree(s, t, w).workers[t]);
  }

  lemma RootCheckAdvances(c: Config, s: State, t: nat, pick: nat)
    requires Alone(c, s, t) && s.workers[t].pc.RootCheck?
    ensures Advances(c, s, Work(c, s, t, pick), t)
  {
    var w := s.workers[t];
    var s' := Work(c, s, t, pick);
    assert WorkerInv(c, s, t);
    if s.nodes[w.node].expanded {
      EnterTreeAlone(c, s, t, w);
    } else {
      StillLeave(s, s', w, s'.workers[t]);
    }
    SameNode(c, s, s', w, s'.workers[t]);
  }

  // ----- Expansion -----

  lemma ExpandCutAdvances(c: Config, s: State, t: nat, pick: nat)
    requires Alone(c, s, t) && s.workers[t].pc.ExpandCut?
    ensures Advances(c, s, Work(c, s, t, pick), t)
  {
    var w := s.workers[t];
    var s' := Work(c, s, t, pick);
    Survives(c, s, w.node, w.cut);
    StillLeave(s, s', w, s'.workers[t]);
    SameNode(c, s, s', w, s'.workers[t]);
  }

  lemma AcquireAdvances(c: Config, s: State, t: nat)
    requires Alone(c, s, t) && s.workers[t].pc.ExpandAcquire?
    ensures Advances(c, s, Acquire(s, t), t)
  {
    var w := s.workers[t];
    assert WorkerInv(c, s, t) && NodeInv(c, s, w.node);
    NoLock(c, s, t, w.node);
    assert s.nodes[w.node].candidate.Some?;
    var s' := Acquire(s, t);
    StillLeave(s, s', w, s'.workers[t]);
    SameNode(c, s, s', w, s'.workers[t]);
  }

  /** Reaching a child adds nothing to the explicit tree. */
  lemma ChildAddsNothing(s: State, p: Path, i: nat, candidate: Space, cut: Ext)
    ensures
      var s1 := CutOrCreateChild(s, p, i, candidate, cut).0;
      forall q :: q in s1.nodes && s1.nodes[q].expanded && s1.nodes[q].Live() ==>
        q in s.nodes && s.nodes[q].expanded && s.nodes[q].Live() && s1.nodes[q].arity == s.nodes[q].arity
  {
  }

  lemma VisitAdvances(c: Config, s: State, t: nat, i: nat, candidate: Space)
    requires Alone(c, s, t) && s.workers[t].pc == Expanding(i, candidate) && i < s.nodes[s.workers[t].node].arity
    ensures Advances(c, s, ExpandEdge(s, t, i, candidate), t)
  {
    var w := s.workers[t];
    assert WorkerInv(c, s, t);
    var (s1, dead) := CutOrCreateChild(s, w.node, i, candidate, w.cut);
    var w' := w.(pc := if dead then Expanding(i + 1, candidate) else Storing(i, candidate));
    CutOrCreateAndMoveKeeps(c, s, t, w.node, i, candidate, w');
    ChildAddsNothing(s, w.node, i, candidate, w.cut);
    StillLeave(s, With(s1, t, w'), w, w');
    SameNode(c, s, With(s1, t, w'), w, w');
  }

  lemma StoreAdvances(c: Config, s: State, t: nat, i: nat, candidate: Space)
    requires Alone(c, s, t) && s.workers[t].pc == Storing(i, candidate)
    ensures Advances(c, s, StoreCandidate(s, t, i, candidate), t)
  {
    var w := s.workers[t];
    assert WorkerInv(c, s, t) && NodeInv(c, s, w.node + [i]);
    AtChild(c.space, w.node, i);
    assert ApplyAction(candidate, i).Some?;
    var s' := StoreCandidate(s, t, i, candidate);
    StillLeave(s, s', w, s'.workers[t]);
    SameNode(c, s, s', w, s'.workers[t]);
  }

  lemma FinishAdvances(c: Config, s: State, t: nat, i: nat, candidate: Space)
    requires Alone(c, s, t) && s.workers[t].pc == Expanding(i, candidate) && i >= s.nodes[s.workers[t].node].arity
    ensures Advances(c, s, ExpandEdge(s, t, i, candidate), t)
  {
    var w := s.workers[t];
    var s' := ExpandEdge(s, t, i, candidate);
    assert WorkerInv(c, s, t);
    AliveIsPlace(c, s, w.node);
    FinishExpansionStep(c, s, t, i, candidate);
    UnsettledFalls(c, s, s');
    assert !ExpandedAt(s, w.node) && ExpandedAt(s', w.node);
  }

  // ----- Rollout -----

  lemma WalkAdvances(c: Config, s: State, t: nat, candidate: Space)
    requires Alone(c, s, t) && s.workers[t].pc == Walk(candidate)
    ensures Advances(c, s, EnterWalk(s, t, candidate), t)
  {
    var w := s.workers[t];
    var s' := EnterWalk(s, t, candidate);
    Survives(c, s, w.node, w.cut);
    SameNode(c, s, s', w, s'.workers[t]);
  }

  lemma HandingAdvances(c: Config, s: State, t: nat, pick: nat)
    requires Alone(c, s, t) && s.workers[t].pc.Handing?
    ensures Advances(c, s, Work(c, s, t, pick), t)
  {
    var w := s.workers[t];
    KillSettles(c, s, Work(c, s, t, pick), w.node);
  }

  // ----- Descent -----

  lemma LeaveFalls(c: Config, s: State, w: Worker, w': Worker)
    requires w.frames != [] && !Alive(s, w.node) && (w.pc.CheckingNode? || w.pc.CutHere?) && w' == LeaveFrame(w)
    ensures Way(c, s, w') < Way(c, s, w)
  {
  }

  /** The worker moves on without touching the tree. */
  lemma MoveAdvances(c: Config, s: State, t: nat, pc: Pc, w': Worker)
    requires Alone(c, s, t) && (s.workers[t].pc.Checking? || s.workers[t].pc.CheckingEpoch?)
    requires w' == s.workers[t].(pc := pc, epoch := w'.epoch)
    requires (s.workers[t].pc.Checking? && (pc.Finished? || pc.CheckingEpoch?)) ||
             (s.workers[t].pc.CheckingEpoch? && (pc.Refreshing? || pc.CheckingNode?))
    ensures Advances(c, s, With(s, t, w'), t)
  {
    var w := s.workers[t];
    StillLeave(s, With(s, t, w'), w, w');
    MoveShortens(c, s, With(s, t, w'), w, w');
  }

  lemma MoveShortens(c: Config, s: State, s': State, w: Worker, w': Worker)
    requires s'.nodes == s.nodes && w' == w.(pc := w'.pc, epoch := w'.epoch)
    requires (w.pc.Checking? && (w'.pc.Finished? || w'.pc.CheckingEpoch?)) ||
             (w.pc.CheckingEpoch? && (w'.pc.Refreshing? || w'.pc.CheckingNode?))
    ensures Way(c, s', w') < Way(c, s, w)
  {
  }

  lemma CheckStopAdvances(c: Config, s: State, t: nat)
    requires Alone(c, s, t) && (s.workers[t].pc.Checking? || s.workers[t].pc.CheckingEpoch?)
    ensures s.workers[t].frames != [] && Advances(c, s, Check(s, t), t)
  {
    var w := s.workers[t];
    assert WorkerInv(c, s, t);
    var w' := Check(s, t).workers[t];
    assert Check(s, t) == With(s, t, w');
    MoveAdvances(c, s, t, w'.pc, w');
  }

  lemma CheckNodeAdvances(c: Config, s: State, t: nat)
    requires Alone(c, s, t) && s.workers[t].pc.CheckingNode?
    ensures s.workers[t].frames != [] && Advances(c, s, Check(s, t), t)
  {
    var w := s.workers[t];
    assert WorkerInv(c, s, t);
    var s' := Check(s, t);
    StillLeave(s, s', w, s'.workers[t]);
    if Alive(s, w.node) {
      SameNode(c, s, s', w, s'.workers[t]);
    } else {
      LeaveFalls(c, s, w, s'.workers[t]);
    }
  }

  lemma RefreshAdvances(c: Config, s: State, t: nat, pick: nat)
    requires Alone(c, s, t) && s.workers[t].pc.Refreshing?
    ensures Advances(c, s, Work(c, s, t, pick), t)
  {
    var w := s.workers[t];
    var s' := Work(c, s, t, pick);
    StillLeave(s, s', w, s'.workers[t]);
    if Alive(s, w.node) {
      SameNode(c, s, s', w, s'.workers[t]);
    }
  }

  lemma CutHereAdvances(c: Config, s: State, t: nat, pick: nat)
    requires Alone(c, s, t) && s.workers[t].pc.CutHere?
    ensures Advances(c, s, Work(c, s, t, pick), t)
  {
    var w := s.workers[t];
    assert WorkerInv(c, s, t);
    var (s1, dead) := CutNode(s, w.node, w.cut);
    var w' := if dead then LeaveFrame(w) else w.(pc := Scanning(0, [], []));
    CutIsAt(c, s, w.node, w.cut, t, w');
    CutStillLeaves(c, s, With(s1, t, w'), w.node, dead, w, w');
    if dead {
      LeaveAdvances(c, s, With(s1, t, w'), t, w, w');
    } else {
      assert s1 == s;
      ScanStarts(c, s, t, w, w');
    }
  }

  lemma LeaveAdvances(c: Config, s: State, s': State, t: nat, w: Worker, w': Worker)
    requires t < |s.workers| && w == s.workers[t] && w.frames != [] && w.pc.CutHere? && w' == LeaveFrame(w)
    requires CutAt(c, s, s', w.node, true) && FramesDeep(w)
    requires t < |s'.workers| && s'.workers[t] == w' && ImplementationsLeave(s', w')
    ensures Advances(c, s, s', t)
  {
    if !Alive(s, w.node) {
      assert Way(c, s', w') < Way(c, s, w);
    }
  }

  lemma ScanStarts(c: Config, s: State, t: nat, w: Worker, w': Worker)
    requires t < |s.workers| && w == s.workers[t] && SharedInv(c, s) && Alive(s, w.node) && w.pc.CutHere? && w.frames != []
    requires w' == w.(pc := Scanning(0, [], [])) && FramesDeep(w) && ImplementationsLeave(With(s, t, w'), w')
    ensures Advances(c, s, With(s, t, w'), t)
  {
    SameNode(c, s, With(s, t, w'), w, w');
  }

  lemma DeadEndAdvances(c: Config, s: State, t: nat, pick: nat)
    requires Alone(c, s, t) && s.workers[t].pc.DeadEnd?
    ensures Advances(c, s, Work(c, s, t, pick), t)
  {
    var w := s.workers[t];
    var s' := Work(c, s, t, pick);
    var w' := s'.workers[t];
    StillLeave(s, s', w, w');
    if Starting(w'.pc) || Alive(s, w'.node) {
      UpThenDown(c, s, w, w');
    }
  }

  // ----- The children of a node -----

  lemma ScanInTreeAdvances(c: Config, s: State, t: nat, i: nat, live: seq<nat>, expanded: seq<nat>, pick: nat)
    requires Alone(c, s, t) && s.workers[t].pc == Scanning(i, live, expanded)
    requires s.workers[t].frames != [] && s.workers[t].frames[|s.workers[t].frames| - 1].InTree?
    requires i < s.nodes[s.workers[t].node].arity
    ensures Advances(c, s, Scan(s, t, i, live, expanded, pick), t)
  {
    var w := s.workers[t];
    assert WorkerInv(c, s, t);
    LastFrame(c, s, w);
    assert NodeInv(c, s, w.node);
    assert IsChild(s, w.node, i);
    var (s1, dead) := CutNode(s, w.node + [i], w.cut);
    var w' := w.(pc := if dead then Scanning(i + 1, live, expanded) else Sorting(i, live, expanded));
    assert Scan(s, t, i, live, expanded, pick) == With(s1, t, w');
    CutIsAt(c, s, w.node + [i], w.cut, t, w');
    CutStillLeaves(c, s, With(s1, t, w'), w.node + [i], dead, w, w');
    CutChildAdvances(c, s, With(s1, t, w'), t, i, dead);
  }

  lemma CutChildAdvances(c: Config, s: State, s': State, t: nat, i: nat, dead: bool)
    requires t < |s.workers| && t < |s'.workers| && s.workers[t].pc.Scanning? && i == s.workers[t].pc.edge
    requires SharedInv(c, s) && WorkerInv(c, s, t) && FramesDeep(s.workers[t]) && AlonePc(s, s.workers[t])
    requires CutAt(c, s, s', s.workers[t].node + [i], dead) && i < s.nodes[s.workers[t].node].arity
    requires
      var w := s.workers[t];
      s'.workers[t] == w.(pc := if dead then Scanning(i + 1, w.pc.live, w.pc.expanded) else Sorting(i, w.pc.live, w.pc.expanded))
    requires ImplementationsLeave(s', s'.workers[t])
    ensures Advances(c, s, s', t)
  {
    var w, w' := s.workers[t], s'.workers[t];
    ChildrenDiffer(w.node, i);
    StillListed(s, s', w, w', i, w.pc.live, w.pc.expanded);
    SameNode(c, s, s', w, w');
  }

  lemma ChildrenDiffer(p: Path, i: nat)
    ensures p != p + [i] && forall j: nat :: j != i ==> p + [j] != p + [i]
  {
    assert |p| != |p + [i]|;
    forall j: nat | j != i ensures p + [j] != p + [i] {
      assert (p + [j])[|p|] == j && (p + [i])[|p|] == i;
    }
  }

  /** Cutting or adding the i-th child does not touch the children listed before. */
  lemma StillListed(s: State, s': State, w: Worker, w': Worker, i: nat, live: seq<nat>, expanded: seq<nat>)
    requires Listed(s, w, live, expanded) && w'.node == w.node && w'.frames == w.frames
    requires (forall j :: j in live ==> j < i) && (forall j :: j in expanded ==> j < i)
    requires forall j: nat :: j < i && w.node + [j] in s.nodes ==>
               w.node + [j] in s'.nodes && s'.nodes[w.node + [j]] == s.nodes[w.node + [j]]
    ensures Listed(s', w', live, expanded)
  {
  }

  /** What reaching the i-th child leaves as it was. */
  lemma ReachChild(c: Config, s: State, t: nat, p: Path, i: nat, candidate: Space, cut: Ext)
    requires SharedInv(c, s) && Alive(s, p) && i < s.nodes[p].arity && s.cut.Le(cut) && At(c.space, p) == Some(candidate)
    ensures
      var (s1, dead) := CutOrCreateChild(s, p, i, candidate, cut);
      && Alive(s1, p) && s1.nodes[p].arity == s.nodes[p].arity
      && p + [i] in s1.nodes && (!dead ==> Alive(s1, p + [i]))
      && forall j: nat :: j < i && p + [j] in s.nodes ==> p + [j] in s1.nodes && s1.nodes[p + [j]] == s.nodes[p + [j]]
  {
    CutOrCreateKeeps(c, s, t, p, i, candidate, cut);
    ChildrenDiffer(p, i);
  }

  lemma ScanRolloutAdvances(c: Config, s: State, t: nat, i: nat, live: seq<nat>, expanded: seq<nat>, pick: nat)
    requires Alone(c, s, t) && s.workers[t].pc == Scanning(i, live, expanded)
    requires s.workers[t].frames != [] && s.workers[t].frames[|s.workers[t].frames| - 1].Rollout?
    requires i < s.nodes[s.workers[t].node].arity
    ensures Advances(c, s, Scan(s, t, i, live, expanded, pick), t)
  {
    var w := s.workers[t];
    var candidate := w.frames[|w.frames| - 1].candidate;
    assert WorkerInv(c, s, t);
    LastFrame(c, s, w);
    var (s1, dead) := CutOrCreateChild(s, w.node, i, candidate, w.cut);
    var w' := w.(pc := Scanning(i + 1, if dead then live else live + [i], expanded));
    assert With(s1, t, w') == Scan(s, t, i, live, expanded, pick);
    ReachChild(c, s, t, w.node, i, candidate, w.cut);
    ChildAddsNothing(s, w.node, i, candidate, w.cut);
    RolloutAdvances(c, s, s1, t, i, dead, w');
  }

  lemma RolloutAdvances(c: Config, s: State, s1: State, t: nat, i: nat, dead: bool, w': Worker)
    requires Alone(c, s, t) && s.workers[t].pc.Scanning? && i == s.workers[t].pc.edge && |s1.workers| == |s.workers|
    requires s.workers[t].frames[|s.workers[t].frames| - 1].Rollout?
    requires
      var w := s.workers[t];
      && w' == w.(pc := Scanning(i + 1, if dead then w.pc.live else w.pc.live + [i], w.pc.expanded))
      && Alive(s1, w.node) && s1.nodes[w.node].arity == s.nodes[w.node].arity && i < s.nodes[w.node].arity
      && w.node + [i] in s1.nodes && (!dead ==> Alive(s1, w.node + [i]))
      && forall j: nat :: j < i && w.node + [j] in s.nodes ==>
           w.node + [j] in s1.nodes && s1.nodes[w.node + [j]] == s.nodes[w.node + [j]]
    requires forall q :: q in s1.nodes && s1.nodes[q].expanded && s1.nodes[q].Live() ==>
               q in s.nodes && s.nodes[q].expanded && s.nodes[q].Live() && s1.nodes[q].arity == s.nodes[q].arity
    ensures Advances(c, s, With(s1, t, w'), t)
  {
    var w := s.workers[t];
    var s' := With(s1, t, w');
    assert WorkerInv(c, s, t);
    StillLeave(s, s', w, w');
    StillListed(s, s', w, w', i, w.pc.live, w.pc.expanded);
    OneMoreListed(s', w', i, w.pc.live, w.pc.expanded);
    SameNode(c, s, s', w, w');
  }

  lemma OneMoreListed(s: State, w: Worker, i: nat, live: seq<nat>, expanded: seq<nat>)
    requires Listed(s, w, live, expanded) && w.frames[|w.frames| - 1].Rollout? && w.node + [i] in s.nodes
    ensures Alive(s, w.node + [i]) ==> Listed(s, w, live + [i], expanded)
  {
  }

  lemma SortAdvances(c: Config, s: State, t: nat, i: nat, live: seq<nat>, expanded: seq<nat>)
    requires Alone(c, s, t) && s.workers[t].pc == Sorting(i, live, expanded)
    ensures Advances(c, s, Sort(s, t, i, live, expanded), t)
  {
    var w := s.workers[t];
    assert WorkerInv(c, s, t);
    var isExpanded := s.nodes[w.node + [i]].expanded;
    var w' := w.(pc := Scanning(i + 1, if isExpanded then live else live + [i], if isExpanded then expanded + [i] else expanded));
    var s' := With(s, t, w');
    assert s' == Sort(s, t, i, live, expanded);
    StillLeave(s, s', w, w');
    SortListed(s, s', w, w', i, live, expanded);
    SameNode(c, s, s', w, w');
  }

  lemma SortListed(s: State, s': State, w: Worker, w': Worker, i: nat, live: seq<nat>, expanded: seq<nat>)
    requires Listed(s, w, live, expanded) && Alive(s, w.node + [i]) && s'.nodes == s.nodes
    requires w'.node == w.node && w'.frames == w.frames
    ensures s.nodes[w.node + [i]].expanded ==> Listed(s', w', live, expanded + [i])
    ensures !s.nodes[w.node + [i]].expanded ==> Listed(s', w', live + [i], expanded)
  {
  }

  lemma SelectAdvances(c: Config, s: State, t: nat, i: nat, live: seq<nat>, expanded: seq<nat>, pick: nat)
    requires Alone(c, s, t) && s.workers[t].pc == Scanning(i, live, expanded) && s.workers[t].frames != []
    requires i >= s.nodes[s.workers[t].node].arity
    ensures Advances(c, s, Select(s, t, live, expanded, pick), t)
  {
    var w := s.workers[t];
    var s' := Select(s, t, live, expanded, pick);
    var w' := s'.workers[t];
    assert WorkerInv(c, s, t);
    LastFrame(c, s, w);
    assert |w.frames| - 1 <= |w.node|;
    if live != [] {
      SelectLiveAlone(c, s, t, live, expanded, pick);
    } else if expanded != [] {
      var j := expanded[pick % |expanded|];
      assert j in expanded && IsChild(s, w.node, j);
      EnterTreeAlone(c, s, t, w.(node := w.node + [j]));
      assert s.nodes[w.node + [j]].arity != 0;
      ToChild(c, s, w, w', j);
    } else {
      KillSettles(c, s, s', w.node);
      StillLeave(s, s', w, w');
    }
  }

  lemma SelectLiveAlone(c: Config, s: State, t: nat, live: seq<nat>, expanded: seq<nat>, pick: nat)
    requires Alone(c, s, t) && s.workers[t].pc.Scanning? && s.workers[t].pc.live == live && live != []
    requires AtFrame(s.workers[t]) && FrameOk(c, s, s.workers[t].frames[|s.workers[t].frames| - 1])
    ensures Advances(c, s, Select(s, t, live, expanded, pick), t)
  {
    var w := s.workers[t];
    var s' := Select(s, t, live, expanded, pick);
    var j := live[pick % |live|];
    assert j in live;
    AliveIsPlace(c, s, w.node + [j]);
    AtChild(c.space, w.node, j);
    StillLeave(s, s', w, s'.workers[t]);
    ToChild(c, s, w, s'.workers[t], j);
  }

  // ----- All steps -----

  lemma ExpandAdvances(c: Config, s: State, t: nat, i: nat, candidate: Space)
    requires Alone(c, s, t) && s.workers[t].pc == Expanding(i, candidate)
    ensures Advances(c, s, ExpandEdge(s, t, i, candidate), t)
  {
    if i < s.nodes[s.workers[t].node].arity {
      VisitAdvances(c, s, t, i, candidate);
    } else {
      FinishAdvances(c, s, t, i, candidate);
    }
  }

  lemma ScanAdvances(c: Config, s: State, t: nat, pick: nat)
    requires Alone(c, s, t) && s.workers[t].pc.Scanning?
    ensures s.workers[t].frames != []
    ensures var pc := s.workers[t].pc; Advances(c, s, Scan(s, t, pc.edge, pc.live, pc.expanded, pick), t)
  {
    var w := s.workers[t];
    assert WorkerInv(c, s, t);
    if w.pc.edge >= s.nodes[w.node].arity {
      SelectAdvances(c, s, t, w.pc.edge, w.pc.live, w.pc.expanded, pick);
    } else if w.frames[|w.frames| - 1].InTree? {
      ScanInTreeAdvances(c, s, t, w.pc.edge, w.pc.live, w.pc.expanded, pick);
    } else {
      ScanRolloutAdvances(c, s, t, w.pc.edge, w.pc.live, w.pc.expanded, pick);
    }
  }

  lemma WorkAdvances(c: Config, s: State, t: nat, pick: nat)
    requires Alone(c, s, t) && !s.workers[t].pc.Finished?
    ensures Advances(c, s, Work(c, s, t, pick), t)
  {
    var w := s.workers[t];
    assert WorkerInv(c, s, t);
    match w.pc {
      case Outside => StartAdvances(c, s, t, pick);
      case Loop => StartAdvances(c, s, t, pick);
      case LoadEpoch => StartAdvances(c, s, t, pick);
      case RootCut => RootCutAdvances(c, s, t, pick);
      case RootCheck => RootCheckAdvances(c, s, t, pick);
      case ExpandCut => ExpandCutAdvances(c, s, t, pick);
      case ExpandAcquire => AcquireAdvances(c, s, t);
      case Expanding(i, candidate) => ExpandAdvances(c, s, t, i, candidate);
      case Storing(i, candidate) => StoreAdvances(c, s, t, i, candidate);
      case Walk(candidate) => WalkAdvances(c, s, t, candidate);
      case Handing => HandingAdvances(c, s, t, pick);
      case Checking => CheckStopAdvances(c, s, t);
      case CheckingEpoch => CheckStopAdvances(c, s, t);
      case CheckingNode => CheckNodeAdvances(c, s, t);
      case Refreshing => RefreshAdvances(c, s, t, pick);
      case CutHere => CutHereAdvances(c, s, t, pick);
      case Scanning(_, _, _) => ScanAdvances(c, s, t, pick);
      case Sorting(i, live, expanded) => SortAdvances(c, s, t, i, live, expanded);
      case DeadEnd => DeadEndAdvances(c, s, t, pick);
    }
  }

  lemma WorkStaysAlone(c: Config, s: State, t: nat, pick: nat)
    requires Alone(c, s, t)
    ensures Alone(c, Work(c, s, t, pick), t)
  {
    var s' := Work(c, s, t, pick);
    if !s.workers[t].pc.Finished? {
      WorkAdvances(c, s, t, pick);
      NeverWaits(c, s, t);
      WorkKeeps(c, s, t, pick);
      InvFromKeeps(c, s, s', t);
      WorkPrunes(c, s, t, pick);
      assert OnlyWorker(s, s', t);
    }
  }

  /** The steps left are a measure: each step of the worker lowers it. */
  lemma WorkLowersStepsLeft(c: Config, s: State, t: nat, pick: nat)
    requires Alone(c, s, t) && !s.workers[t].pc.Finished?
    ensures StepsLeft(c, Work(c, s, t, pick), t) < StepsLeft(c, s, t)
  {
    var s' := Work(c, s, t, pick);
    WorkAdvances(c, s, t, pick);
    WorkStaysAlone(c, s, t, pick);
    NeverWaits(c, s, t);
    WorkKeeps(c, s, t, pick);
    UnsettledFalls(c, s, s');
    WayBound(c, s', t);
    if Unsettled(c, s') < Unsettled(c, s) {
      SettledStep(Size(c.space), Unsettled(c, s), Way(c, s, s.workers[t]), Unsettled(c, s'), Way(c, s', s'.workers[t]));
    } else {
      UnsettledMonotone(Size(c.space), Unsettled(c, s), Unsettled(c, s'));
    }
  }

  lemma FewFrames(c: Config, s: State, t: nat)
    requires Alone(c, s, t) && !Starting(s.workers[t].pc) && !Ended(s.workers[t].pc)
    ensures |s.workers[t].frames| <= Size(c.space)
  {
    var w := s.workers[t];
    assert WorkerInv(c, s, t);
    if w.frames != [] {
      var f := w.frames[|w.frames| - 1];
      assert f in w.frames && FrameOk(c, s, f) && NodeInv(c, s, f.node);
      DepthBound(c.space, f.node);
    }
  }

  lemma WayBound(c: Config, s: State, t: nat)
    requires Alone(c, s, t)
    ensures Way(c, s, s.workers[t]) < WayLimit(Size(c.space))
  {
    var w, size := s.workers[t], Size(c.space);
    if Starting(w.pc) {
      DownFalls(size, size + 2, 6 * (size + 1) + 6, size + 1, StepsToStart(w.pc));
    } else if !Ended(w.pc) {
      FewFrames(c, s, t);
      if Alive(s, w.node) {
        AliveIsPlace(c, s, w.node);
        StepsFit(c, s, w.node, w.pc);
        DownFalls(size, size + 2, 6 * (size + 1) + 6, SizeAt(c.space, w.node), StepsAt(s.nodes[w.node].arity, w.pc));
      }
    } else {
      DownFalls(size, size + 2, 6 * (size + 1) + 6, 0, 0);
    }
  }

  lemma StepsLeftBound(c: Config, s: State, t: nat)
    requires Alone(c, s, t)
    ensures StepsLeft(c, s, t) < StepLimit(c)
  {
    WayBound(c, s, t);
    UnsettledBound(c, s);
    SettledStep(Size(c.space), 2 * Size(c.space) + 1, 0, Unsettled(c, s), Way(c, s, s.workers[t]));
  }

  // ----- Whole runs -----

  /** A run in which only worker `t` works. */
  ghost predicate AloneRun(c: Config, run: seq<State>, events: seq<Event>, t: nat) {
    && Run(c, run, events) && t < |run[0].workers|
    && forall k :: 0 <= k < |events| && events[k].Worked? ==> events[k].t == t
  }

  lemma InitAlone(c: Config, s: State, t: nat)
    requires Init(c, s) && t < |s.workers|
    ensures Alone(c, s, t)
  {
    InitInv(c, s);
  }

  /** What is published or dropped meanwhile, and restarts, leave the worker alone. */
  lemma OtherEventsStayAlone(c: Config, s: State, e: Event, s': State, t: nat)
    requires Alone(c, s, t) && Next(c, s, e, s') && !e.Worked?
    ensures Alone(c, s', t)
    ensures e != Restart ==> StepsLeft(c, s', t) == StepsLeft(c, s, t)
  {
    NextKeepsInv(c, s, e, s');
    if e == Restart {
      assert AlonePc(s', s'.workers[t]);
    } else {
      SameLife(c, s, s', t);
    }
  }

  lemma SameLife(c: Config, s: State, s': State, t: nat)
    requires t < |s.workers| && s'.workers == s.workers && s'.nodes.Keys == s.nodes.Keys
    requires forall p :: p in s.nodes ==> s'.nodes[p] == s.nodes[p].(candidate := s'.nodes[p].candidate)
    ensures StepsLeft(c, s', t) == StepsLeft(c, s, t)
    ensures AlonePc(s, s.workers[t]) ==> AlonePc(s', s.workers[t])
    ensures ImplementationsLeave(s, s.workers[t]) ==> ImplementationsLeave(s', s.workers[t])
  {
    assert NotDead(c, s') == NotDead(c, s) && NotExpanded(c, s') == NotExpanded(c, s);
  }

  lemma EventStaysAlone(c: Config, s: State, e: Event, s': State, t: nat)
    requires Alone(c, s, t) && Next(c, s, e, s') && (e.Worked? ==> e.t == t)
    ensures Alone(c, s', t)
  {
    if e.Worked? {
      WorkStaysAlone(c, s, t, e.pick);
    } else {
      OtherEventsStayAlone(c, s, e, s', t);
    }
  }

  lemma {:induction false} AloneAlong(c: Config, run: seq<State>, events: seq<Event>, t: nat, i: nat)
    requires AloneRun(c, run, events, t) && i < |run|
    ensures Alone(c, run[i], t)
  {
    if i == 0 {
      InitAlone(c, run[0], t);
    } else {
      AloneAlong(c, run, events, t, i - 1);
      EventStaysAlone(c, run[i - 1], events[i - 1], run[i - 1 + 1], t);
    }
  }

  /** The steps the worker takes from state `i` to state `j`. */
  function StepsTaken(events: seq<Event>, i: nat, j: nat): nat
    requires i <= j <= |events|
    decreases j - i
  {
    if i == j then 0 else (if events[i].Worked? then 1 else 0) + StepsTaken(events, i + 1, j)
  }

  ghost predicate NoRestart(events: seq<Event>, i: nat, j: nat) {
    forall k :: i <= k < j && k < |events| ==> events[k] != Restart
  }

  lemma EventLowersStepsLeft(c: Config, s: State, e: Event, s': State, t: nat)
    requires Alone(c, s, t) && Next(c, s, e, s') && e != Restart && !s.workers[t].pc.Finished? && (e.Worked? ==> e.t == t)
    ensures t < |s'.workers| && StepsLeft(c, s', t) + (if e.Worked? then 1 else 0) <= StepsLeft(c, s, t)
  {
    if e.Worked? {
      WorkLowersStepsLeft(c, s, t, e.pick);
    } else {
      OtherEventsStayAlone(c, s, e, s', t);
    }
  }

  lemma {:induction false} StepsBounded(c: Config, run: seq<State>, events: seq<Event>, t: nat, i: nat, j: nat)
    requires AloneRun(c, run, events, t) && i <= j < |run| && NoRestart(events, i, j)
    requires t < |run[j].workers| && !run[j].workers[t].pc.Finished?
    ensures t < |run[i].workers| && StepsTaken(events, i, j) + StepsLeft(c, run[j], t) <= StepsLeft(c, run[i], t)
    decreases j - i
  {
    AloneAlong(c, run, events, t, i);
    if i < j {
      StepsBounded(c, run, events, t, i + 1, j);
      if run[i].workers[t].pc.Finished? {
        FinishedForEver(c, run, events, i, j, t);
        assert false;
      }
      EventLowersStepsLeft(c, run[i], events[i], run[i + 1], t);
    }
  }

  /** A worker that is alone is never made to wait and never panics. */
  lemma AloneNeverStuck(c: Config, run: seq<State>, events: seq<Event>, t: nat, i: nat)
    requires AloneRun(c, run, events, t) && i < |run|
    ensures t < |run[i].workers| && !Blocked(run[i], t) && !run[i].workers[t].pc.Panicked?
  {
    AloneAlong(c, run, events, t, i);
    NeverWaits(c, run[i], t);
  }

  /**
   A worker that is alone finishes within a number of steps that only depends on the search
   space, whatever the policy picks, whatever cuts are published and whenever they are.
   */
  lemma AloneEnds(c: Config, run: seq<State>, events: seq<Event>, t: nat, i: nat, j: nat)
    requires AloneRun(c, run, events, t) && i <= j < |run| && NoRestart(events, i, j)
    requires StepsTaken(events, i, j) >= StepLimit(c)
    ensures t < |run[j].workers| && run[j].workers[t].pc.Finished?
  {
    AloneAlong(c, run, events, t, i);
    AloneAlong(c, run, events, t, j);
    StepsLeftBound(c, run[i], t);
    if !run[j].workers[t].pc.Finished? {
      StepsBounded(c, run, events, t, i, j);
      assert false;
    }
  }

  /**
   A search by one worker is complete: when nobody stops it, after `StepLimit` steps without a
   restart it has handed out every implementation that does not lie at or below a candidate whose
   bound reaches the cut.
   */
  lemma AloneFindsAll(c: Config, run: seq<State>, events: seq<Event>, t: nat, i: nat, j: nat)
    requires AloneRun(c, run, events, t) && i <= j < |run| && NoRestart(events, i, j)
    requires StepsTaken(events, i, j) >= StepLimit(c) && !run[j].stop
    ensures forall q :: IsImplementation(c.space, q) ==> q in run[j].handed || BelowCut(c, run[j].cut, q)
  {
    AloneEnds(c, run, events, t, i, j);
    ExhaustedSearchLosesNothing(c, run, events, j, j, t);
  }
}
