/** When the assertions at the start of a descent fail. */
module SearchRaces {
  import opened Wrappers
  import opened Extended
  import opened SearchTree
  import opened SearchInvariant
  import opened SearchSteps

  /** The step enters the explicit tree at the root. */
  predicate EntersAtRoot(s: State, t: nat)
    requires t < |s.workers|
  {
    var w := s.workers[t];
    || (w.pc.RootCheck? && Get(s, []).expanded)
    || (w.pc.ExpandFailed? && w.frames == [])
  }

  /**
   The first assertion of the explicit tree fails exactly when the expansion of the root
   failed and the root is still not expanded, and the second exactly when the root of the
   explicit tree is an implementation. No other assertion can fail.
   */
  lemma PanicsIff(c: Config, run: seq<State>, events: seq<Event>, i: nat)
    requires Run(c, run, events) && i < |events| && events[i].Worked?
    requires events[i].t < |run[i].workers| && !run[i].workers[events[i].t].pc.Panicked?
    ensures
      var s, t := run[i], events[i].t;
      var pc := run[i + 1].workers[t].pc;
      && (pc == Panicked(NotInTree) <==> EntersAtRoot(s, t) && !Get(s, []).expanded)
      && (pc == Panicked(ImplementationInTree) <==>
            EntersAtRoot(s, t) && Get(s, []).expanded && c.space.children == [])
      && (pc.Panicked? ==> pc.reason.NotInTree? || pc.reason.ImplementationInTree?)
  {
    var s, e, s' := run[i], events[i], run[i + 1];
    RunInv(c, run, events, i);
    RunInv(c, run, events, i + 1);
    assert Next(c, s, e, s');
    assert WorkerInv(c, s', e.t);
    StepPanicsIff(c, s, e.t, e.pick);
  }

  lemma StepPanicsIff(c: Config, s: State, t: nat, pick: nat)
    requires Inv(c, s) && t < |s.workers| && !s.workers[t].pc.Panicked?
    requires WorkerInv(c, Work(c, s, t, pick), t)
    ensures
      var pc := Work(c, s, t, pick).workers[t].pc;
      && (pc == Panicked(NotInTree) <==> EntersAtRoot(s, t) && !Get(s, []).expanded)
      && (pc == Panicked(ImplementationInTree) <==>
            EntersAtRoot(s, t) && Get(s, []).expanded && c.space.children == [])
      && (pc.Panicked? ==> pc.reason.NotInTree? || pc.reason.ImplementationInTree?)
  {
    var w := s.workers[t];
    match w.pc {
      case RootCheck => RootStep(c, s, t, pick);
      case ExpandFailed => RootStep(c, s, t, pick);
      case Scanning(_, _, _) => ScanNeverPanics(c, s, t, pick);
      case ExpandAcquire => ExpansionNeverPanics(c, s, t, pick);
      case Storing(_, _) => ExpansionNeverPanics(c, s, t, pick);
      case _ => OtherStep(c, s, t, pick);
    }
  }

  lemma RootStep(c: Config, s: State, t: nat, pick: nat)
    requires Inv(c, s) && t < |s.workers| && (s.workers[t].pc.RootCheck? || s.workers[t].pc.ExpandFailed?)
    ensures
      var pc := Work(c, s, t, pick).workers[t].pc;
      && (pc == Panicked(NotInTree) <==> EntersAtRoot(s, t) && !Get(s, []).expanded)
      && (pc == Panicked(ImplementationInTree) <==>
            EntersAtRoot(s, t) && Get(s, []).expanded && c.space.children == [])
      && (pc.Panicked? ==> pc.reason.NotInTree? || pc.reason.ImplementationInTree?)
  {
    assert WorkerInv(c, s, t) && NodeInv(c, s, []);
  }

  /** The unwraps of an expansion succeed. */
  lemma ExpansionNeverPanics(c: Config, s: State, t: nat, pick: nat)
    requires Inv(c, s) && t < |s.workers| && (s.workers[t].pc.ExpandAcquire? || s.workers[t].pc.Storing?)
    requires WorkerInv(c, Work(c, s, t, pick), t)
    ensures !Work(c, s, t, pick).workers[t].pc.Panicked?
  {
  }

  /** The other steps check nothing. */
  lemma OtherStep(c: Config, s: State, t: nat, pick: nat)
    requires t < |s.workers| && !s.workers[t].pc.Panicked?
    requires !s.workers[t].pc.RootCheck? && !s.workers[t].pc.ExpandFailed? && !s.workers[t].pc.Scanning?
    requires !s.workers[t].pc.ExpandAcquire? && !s.workers[t].pc.Storing?
    ensures !Work(c, s, t, pick).workers[t].pc.Panicked?
  {
  }

  /** The policy is only offered expanded children to descend into. */
  lemma ScanNeverPanics(c: Config, s: State, t: nat, pick: nat)
    requires Inv(c, s) && t < |s.workers| && s.workers[t].pc.Scanning?
    requires WorkerInv(c, Work(c, s, t, pick), t)
    ensures !Work(c, s, t, pick).workers[t].pc.Panicked?
  {
    var w := s.workers[t];
    assert WorkerInv(c, s, t);
    var live, expanded := w.pc.live, w.pc.expanded;
    if w.pc.edge >= Get(s, w.node).arity && live == [] && expanded != [] {
      var j := expanded[pick % |expanded|];
      assert j in expanded && IsChild(s, w.node, j);
    }
  }

  // ----- Both failures happen -----

  ghost predicate Reachable(c: Config, s: State) {
    exists run, events :: Run(c, run, events) && run[|events|] == s
  }

  /** Of two workers, worker `t` may fail for this reason. */
  ghost predicate Fails(t: nat, reason: Panic)
    requires t < 2
  {
    exists c, s :: Reachable(c, s) && |s.workers| == 2 && s.workers[t].pc == Panicked(reason)
  }

  lemma ReachNext(c: Config, s: State, e: Event, s': State)
    requires Reachable(c, s) && Next(c, s, e, s')
    ensures Reachable(c, s')
  {
    var run, events :| Run(c, run, events) && run[|events|] == s;
    var run', events' := run + [s'], events + [e];
    forall i | 0 <= i < |events'| ensures Next(c, run'[i], events'[i], run'[i + 1]) {
      if i < |events| {
        assert Next(c, run[i], events[i], run[i + 1]);
      }
    }
    assert Run(c, run', events') && run'[|events'|] == s';
  }

  function AtRoot(pc: Pc, cut: Ext, epoch: nat): Worker {
    Worker(pc, cut, epoch, [], [])
  }

  /** One step of a worker that leads to `s'`. */
  lemma ReachWork(c: Config, s: State, t: nat, s': State)
    requires Reachable(c, s) && t < |s.workers| && !Blocked(s, t) && s' == Work(c, s, t, 0)
    ensures Reachable(c, s')
  {
    ReachNext(c, s, Worked(t, 0), s');
  }

  /** A worker that starts a descent arrives at the root with the present cut. */
  lemma ReachRoot(c: Config, s: State, t: nat)
    requires Reachable(c, s) && t < |s.workers| && s.workers[t].pc.Outside?
    ensures Reachable(c, With(s, t, AtRoot(RootCut, s.cut, s.epoch)))
  {
    var s1 := With(s, t, s.workers[t].(pc := Loop));
    ReachWork(c, s, t, s1);
    var s2 := With(s, t, AtRoot(LoadEpoch, s.cut, s.workers[t].epoch));
    assert s1.workers[t := s2.workers[t]] == s2.workers;
    ReachWork(c, s1, t, s2);
    var s3 := With(s, t, AtRoot(RootCut, s.cut, s.epoch));
    assert s2.workers[t := s3.workers[t]] == s3.workers;
    ReachWork(c, s2, t, s3);
  }

  /** Two workers at a root without children in the tree. */
  function Two(node: Node, cut: Ext, epoch: nat, taken: set<Path>, v: Worker, w: Worker): State {
    State(map[[] := node], cut, epoch, false, [v, w], {}, taken)
  }

  /** Both workers outside, and worker 0 brought past the check of the root. */
  lemma ReachExpansion(c: Config, out: Worker)
    requires c.initialCut == Inf && out == AtRoot(Outside, Inf, 0)
    ensures
      var live := NewNode(Some(c.space)).(candidate := Some(c.space));
      Reachable(c, Two(live, Inf, 0, {}, AtRoot(ExpandCut, Inf, 0), out))
  {
    var live := NewNode(Some(c.space)).(candidate := Some(c.space));
    var s := Two(live, Inf, 0, {}, out, out);
    var none: seq<Event> := [];
    assert Run(c, [s], none) && [s][|none|] == s;
    ReachRoot(c, s, 0);
    var s1 := Two(live, Inf, 0, {}, AtRoot(RootCut, Inf, 0), out);
    assert s1 == With(s, 0, AtRoot(RootCut, s.cut, s.epoch));
    var s2 := Two(live, Inf, 0, {}, AtRoot(RootCheck, Inf, 0), out);
    ReachWork(c, s1, 0, s2);
    ReachWork(c, s2, 0, Two(live, Inf, 0, {}, AtRoot(ExpandCut, Inf, 0), out));
  }

  /**
   The root dies between the check and the expansion: worker 0 passes the check, a cut of
   zero is published, worker 1 applies it to the root, and worker 0 then fails to expand it.
   */
  lemma RootDiesBeforeExpansion()
    ensures Fails(0, NotInTree)
  {
    var c := Config(Space(1.0, [None]), Inf, true);
    var live := NewNode(Some(c.space)).(candidate := Some(c.space));
    var low := Fin(0.0);
    var out, ready, gone := AtRoot(Outside, Inf, 0), AtRoot(ExpandCut, Inf, 0), AtRoot(Finished(false), low, 1);
    ReachExpansion(c, out);
    var s1 := Two(live, low, 1, {}, ready, out);
    ReachNext(c, Two(live, Inf, 0, {}, ready, out), UpdateCut(low), s1);
    ReachRoot(c, s1, 1);
    var s2 := Two(live, low, 1, {}, ready, AtRoot(RootCut, low, 1));
    assert s2 == With(s1, 1, AtRoot(RootCut, low, 1));
    var s3 := Two(live.(dead := true), low, 1, {}, ready, gone);
    ReachWork(c, s2, 1, s3);
    ExpandDeadRoot(c, s3);
  }

  /** A worker about to expand a root that is dead fails on entry of the explicit tree. */
  lemma ExpandDeadRoot(c: Config, s: State)
    requires Reachable(c, s) && |s.workers| == 2 && s.workers[0] == AtRoot(ExpandCut, Inf, 0)
    requires [] in s.nodes && s.nodes[[]].dead && !s.nodes[[]].expanded && s.nodes[[]].lock == None
    ensures Fails(0, NotInTree)
  {
    var s1 := With(s, 0, AtRoot(ExpandFailed, Inf, 0));
    ReachWork(c, s, 0, s1);
    ReachWork(c, s1, 0, With(s1, 0, AtRoot(Panicked(NotInTree), Inf, 0)));
  }

  /** The root is an implementation: worker 1 finds that worker 0 has expanded it. */
  lemma ImplementationAtRoot()
    ensures Fails(1, ImplementationInTree)
  {
    var space := Space(1.0, []);
    var c := Config(space, Inf, true);
    var live := NewNode(Some(space)).(candidate := Some(space));
    var locked := live.(lock := Some(0), candidate := None);
    var out := AtRoot(Outside, Inf, 0);
    ReachExpansion(c, out);
    var s1 := Two(live, Inf, 0, {}, AtRoot(ExpandAcquire, Inf, 0), out);
    ReachWork(c, Two(live, Inf, 0, {}, AtRoot(ExpandCut, Inf, 0), out), 0, s1);
    var s2 := Two(locked, Inf, 0, {[]}, AtRoot(Expanding(0, space), Inf, 0), out);
    ReachWork(c, s1, 0, s2);
    ExpandImplementation(c, s2, locked, out);
  }

  lemma ExpandImplementation(c: Config, s: State, locked: Node, out: Worker)
    requires Reachable(c, s) && locked.bound.Some? && locked.arity == 0 && !locked.dead && out == AtRoot(Outside, Inf, 0)
    requires s == Two(locked, Inf, 0, {[]}, AtRoot(Expanding(0, c.space), Inf, 0), out)
    ensures Fails(1, ImplementationInTree)
  {
    var s1 := Two(locked.(expanded := true, lock := None), Inf, 0, {[]}, AtRoot(Walk(c.space), Inf, 0), out);
    ReachWork(c, s, 0, s1);
    EnterImplementation(c, s1);
  }

  /** A worker that starts a descent at an expanded root without actions fails. */
  lemma EnterImplementation(c: Config, s: State)
    requires Reachable(c, s) && |s.workers| == 2 && s.workers[1].pc.Outside? && s.cut == Inf
    requires [] in s.nodes && s.nodes[[]].Live() && s.nodes[[]].expanded
    requires s.nodes[[]].Implementation() && s.nodes[[]].lock == None
    ensures Fails(1, ImplementationInTree)
  {
    ReachRoot(c, s, 1);
    var s1 := With(s, 1, AtRoot(RootCut, Inf, s.epoch));
    var s2 := With(s1, 1, AtRoot(RootCheck, Inf, s.epoch));
    ReachWork(c, s1, 1, s2);
    ReachWork(c, s2, 1, With(s2, 1, AtRoot(Panicked(ImplementationInTree), Inf, s.epoch)));
  }

  // ----- A cut that goes unnoticed -----

  /** A worker alone, at a root of bound one whose only action is rejected. */
  function One(node: Node, more: map<Path, Node>, taken: set<Path>, cut: Ext, epoch: nat, w: Worker): State {
    State(map[[] := node] + more, cut, epoch, false, [w], {}, taken)
  }

  /** A worker that finds its epoch unchanged may not know the present cut. */
  ghost predicate Unnoticed() {
    exists c, s :: Reachable(c, s) && |s.workers| == 1 && s.workers[0].pc.CheckingEpoch? &&
      s.workers[0].epoch == s.epoch && s.workers[0].cut != s.cut
  }

  /**
   A cut published after a worker read the cut and before it read its epoch goes unnoticed: the
   check finds the epoch unchanged, and the worker goes on with the cut it read.
   */
  lemma UnnoticedCut()
    ensures Unnoticed()
  {
    var space, low := Space(1.0, [None]), Fin(0.0);
    var c := Config(space, Inf, true);
    var live := NewNode(Some(space)).(candidate := Some(space));
    var s0 := One(live, map[], {}, Inf, 0, AtRoot(Outside, Inf, 0));
    var none: seq<Event> := [];
    assert Run(c, [s0], none) && [s0][|none|] == s0;
    var s1 := One(live, map[], {}, Inf, 0, AtRoot(Loop, Inf, 0));
    ReachWork(c, s0, 0, s1);
    var s2 := One(live, map[], {}, Inf, 0, AtRoot(LoadEpoch, Inf, 0));
    ReachWork(c, s1, 0, s2);
    var s3 := One(live, map[], {}, low, 1, AtRoot(LoadEpoch, Inf, 0));
    ReachNext(c, s2, UpdateCut(low), s3);
    var s4 := One(live, map[], {}, low, 1, AtRoot(RootCut, Inf, 1));
    ReachWork(c, s3, 0, s4);
    ExpandAndCheck(c, s4);
  }

  /** From the root to the first check, with the cut and the epoch of the start. */
  lemma ExpandAndCheck(c: Config, s: State)
    requires c.space == Space(1.0, [None]) && Reachable(c, s)
    requires s == One(NewNode(Some(c.space)).(candidate := Some(c.space)), map[], {}, Fin(0.0), 1, AtRoot(RootCut, Inf, 1))
    ensures Unnoticed()
  {
    var live := s.nodes[[]];
    var s1 := With(s, 0, AtRoot(RootCheck, Inf, 1));
    ReachWork(c, s, 0, s1);
    var s2 := With(s1, 0, AtRoot(ExpandCut, Inf, 1));
    ReachWork(c, s1, 0, s2);
    var s3 := With(s2, 0, AtRoot(ExpandAcquire, Inf, 1));
    ReachWork(c, s2, 0, s3);
    AcquireAndCheck(c, s3, live);
  }

  lemma AcquireAndCheck(c: Config, s: State, live: Node)
    requires c.space == Space(1.0, [None]) && Reachable(c, s) && live == NewNode(Some(c.space)).(candidate := Some(c.space))
    requires s == One(live, map[], {}, Fin(0.0), 1, AtRoot(ExpandAcquire, Inf, 1))
    ensures Unnoticed()
  {
    var locked := live.(lock := Some(0), candidate := None);
    var s1 := One(locked, map[], {[]}, Fin(0.0), 1, AtRoot(Expanding(0, c.space), Inf, 1));
    ReachWork(c, s, 0, s1);
    ExpandRejected(c, s1, locked);
  }

  lemma ExpandRejected(c: Config, s: State, locked: Node)
    requires c.space == Space(1.0, [None]) && Reachable(c, s) && locked.arity == 1 && locked.bound == Some(1.0) && !locked.dead
    requires s == One(locked, map[], {[]}, Fin(0.0), 1, AtRoot(Expanding(0, c.space), Inf, 1))
    ensures Unnoticed()
  {
    var s1 := One(locked, map[[0] := NewNode(None)], {[]}, Fin(0.0), 1, AtRoot(Expanding(1, c.space), Inf, 1));
    assert [] + [0] == [0] && [0] != [];
    ReachWork(c, s, 0, s1);
    FinishAndCheck(c, s1, locked, map[[0] := NewNode(None)]);
  }

  lemma FinishAndCheck(c: Config, s: State, locked: Node, more: map<Path, Node>)
    requires c.space == Space(1.0, [None]) && Reachable(c, s) && locked.arity == 1 && locked.bound == Some(1.0) && [] !in more
    requires s == One(locked, more, {[]}, Fin(0.0), 1, AtRoot(Expanding(1, c.space), Inf, 1))
    ensures Unnoticed()
  {
    var s1 := One(locked.(expanded := true, lock := None), more, {[]}, Fin(0.0), 1, AtRoot(Walk(c.space), Inf, 1));
    ReachWork(c, s, 0, s1);
    WalkAndCheck(c, s1);
  }

  lemma WalkAndCheck(c: Config, s: State)
    requires Reachable(c, s) && |s.workers| == 1 && s.workers[0] == AtRoot(Walk(c.space), Inf, 1)
    requires [] in s.nodes && s.nodes[[]].arity > 0 && s.epoch == 1 && s.cut == Fin(0.0) && !s.stop
    ensures Unnoticed()
  {
    var w := Worker(Checking, Inf, 1, [], [Rollout([], c.space)]);
    var before: seq<Frame> := [];
    assert before + [Rollout([], c.space)] == [Rollout([], c.space)];
    var s1 := With(s, 0, w);
    ReachWork(c, s, 0, s1);
    ReachWork(c, s1, 0, With(s1, 0, w.(pc := CheckingEpoch)));
  }
}
