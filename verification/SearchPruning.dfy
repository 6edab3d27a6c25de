/**
 Pruning happens: nothing is handed out, expanded or walked to unless its bound is below every
 cut published when the worker last read the cut.
 */
module SearchPruning {
  import opened Wrappers
  import opened Extended
  import opened SearchTree
  import opened SearchInvariant
  import opened SearchSteps
  import opened SearchTheorems

  /** The candidate at `p` exists, and its bound is below the cut. */
  predicate Passes(c: Config, cut: Ext, p: Path) {
    match At(c.space, p)
    case None => false
    case Some(space) => cut.Above(space.bound)
  }

  ghost predicate AllPass(c: Config, w: Worker, edges: seq<nat>) {
    forall j :: j in edges ==> Passes(c, w.cut, w.node + [j])
  }

  /** Where a worker is about to expand, store or walk, the bounds are below the cut it knows. */
  ghost predicate PruneInv(c: Config, w: Worker) {
    match w.pc
    case RootCheck => Passes(c, w.cut, w.node)
    case ExpandCut => Passes(c, w.cut, w.node)
    case ExpandAcquire => Passes(c, w.cut, w.node)
    case Expanding(_, _) => Passes(c, w.cut, w.node)
    case Storing(i, _) => Passes(c, w.cut, w.node) && Passes(c, w.cut, w.node + [i])
    case Walk(_) => Passes(c, w.cut, w.node)
    case Handing => Passes(c, w.cut, w.node)
    case Scanning(_, live, expanded) => AllPass(c, w, live) && AllPass(c, w, expanded)
    case Sorting(i, live, expanded) => AllPass(c, w, live) && AllPass(c, w, expanded) && Passes(c, w.cut, w.node + [i])
    case _ => true
  }

  /** A node that survives a cut passes it. */
  lemma SurvivorPasses(c: Config, s: State, p: Path, cut: Ext)
    requires SharedInv(c, s) && p in s.nodes && !CutNode(s, p, cut).1
    ensures Passes(c, cut, p)
  {
    assert NodeInv(c, s, p);
  }

  lemma SurvivingChildPasses(c: Config, s: State, p: Path, i: nat, candidate: Space, cut: Ext)
    requires SharedInv(c, s) && At(c.space, p) == Some(candidate) && !CutOrCreateChild(s, p, i, candidate, cut).1
    ensures Passes(c, cut, p + [i])
  {
    AtChild(c.space, p, i);
    if p + [i] in s.nodes {
      SurvivorPasses(c, s, p + [i], cut);
    }
  }

  lemma WorkPrunes(c: Config, s: State, t: nat, pick: nat)
    requires Inv(c, s) && t < |s.workers| && PruneInv(c, s.workers[t])
    ensures PruneInv(c, Work(c, s, t, pick).workers[t])
  {
    match s.workers[t].pc {
      case RootCut => RootCutPrunes(c, s, t, pick);
      case ExpandAcquire => AcquirePrunes(c, s, t);
      case Expanding(i, candidate) => ExpandPrunes(c, s, t, i, candidate);
      case Storing(_, _) => StorePrunes(c, s, t, pick);
      case Walk(candidate) => WalkPrunes(c, s, t, candidate);
      case Scanning(_, _, _) => ScanPrunes(c, s, t, pick);
      case Sorting(i, live, expanded) => SortPrunes(c, s, t, i, live, expanded);
      case RootCheck => RootPrunes(c, s, t, pick);
      case ExpandCut => RootPrunes(c, s, t, pick);
      case ExpandFailed => RootPrunes(c, s, t, pick);
      case Outside => OtherPrunes(c, s, t, pick);
      case Loop => OtherPrunes(c, s, t, pick);
      case LoadEpoch => OtherPrunes(c, s, t, pick);
      case Handing => OtherPrunes(c, s, t, pick);
      case Finished(_) => OtherPrunes(c, s, t, pick);
      case Panicked(_) => OtherPrunes(c, s, t, pick);
      case _ => CheckPrunes(c, s, t, pick);
    }
  }

  lemma RootCutPrunes(c: Config, s: State, t: nat, pick: nat)
    requires Inv(c, s) && t < |s.workers| && s.workers[t].pc.RootCut?
    ensures PruneInv(c, Work(c, s, t, pick).workers[t])
  {
    var w := s.workers[t];
    assert WorkerInv(c, s, t);
    if !CutNode(s, w.node, w.cut).1 {
      SurvivorPasses(c, s, w.node, w.cut);
    }
  }

  lemma AcquirePrunes(c: Config, s: State, t: nat)
    requires t < |s.workers| && Passes(c, s.workers[t].cut, s.workers[t].node)
    ensures PruneInv(c, Acquire(s, t).workers[t])
  {
  }

  lemma ExpandPrunes(c: Config, s: State, t: nat, i: nat, candidate: Space)
    requires Inv(c, s) && t < |s.workers| && s.workers[t].pc == Expanding(i, candidate) && PruneInv(c, s.workers[t])
    ensures PruneInv(c, ExpandEdge(s, t, i, candidate).workers[t])
  {
    var w := s.workers[t];
    assert WorkerInv(c, s, t);
    if !CutOrCreateChild(s, w.node, i, candidate, w.cut).1 {
      SurvivingChildPasses(c, s, w.node, i, candidate, w.cut);
    }
  }

  lemma StorePrunes(c: Config, s: State, t: nat, pick: nat)
    requires t < |s.workers| && s.workers[t].pc.Storing? && PruneInv(c, s.workers[t])
    ensures PruneInv(c, Work(c, s, t, pick).workers[t])
  {
  }

  lemma WalkPrunes(c: Config, s: State, t: nat, candidate: Space)
    requires t < |s.workers| && s.workers[t].pc == Walk(candidate) && PruneInv(c, s.workers[t])
    ensures PruneInv(c, EnterWalk(s, t, candidate).workers[t])
  {
  }

  lemma SortPrunes(c: Config, s: State, t: nat, i: nat, live: seq<nat>, expanded: seq<nat>)
    requires t < |s.workers| && s.workers[t].pc == Sorting(i, live, expanded) && PruneInv(c, s.workers[t])
    ensures PruneInv(c, Sort(s, t, i, live, expanded).workers[t])
  {
  }

  /** The steps that keep the node and the cut. */
  lemma RootPrunes(c: Config, s: State, t: nat, pick: nat)
    requires t < |s.workers| && PruneInv(c, s.workers[t])
    requires s.workers[t].pc.RootCheck? || s.workers[t].pc.ExpandCut? || s.workers[t].pc.ExpandFailed?
    ensures PruneInv(c, Work(c, s, t, pick).workers[t])
  {
  }

  lemma CheckPrunes(c: Config, s: State, t: nat, pick: nat)
    requires t < |s.workers| && PruneInv(c, s.workers[t])
    requires
      var pc := s.workers[t].pc;
      pc.Checking? || pc.CheckingEpoch? || pc.CheckingNode? || pc.Refreshing? || pc.CutHere? || pc.DeadEnd?
    ensures PruneInv(c, Work(c, s, t, pick).workers[t])
  {
    var w' := Work(c, s, t, pick).workers[t];
    assert w'.pc.Scanning? ==> AllPass(c, w', []);
  }

  /** The steps that lead to no place where a bound matters. */
  lemma OtherPrunes(c: Config, s: State, t: nat, pick: nat)
    requires t < |s.workers| && PruneInv(c, s.workers[t])
    requires
      var pc := s.workers[t].pc;
      pc.Outside? || pc.Loop? || pc.LoadEpoch? || pc.Handing? || pc.Finished? || pc.Panicked?
    ensures PruneInv(c, Work(c, s, t, pick).workers[t])
  {
  }

  lemma ScanPrunes(c: Config, s: State, t: nat, pick: nat)
    requires Inv(c, s) && t < |s.workers| && s.workers[t].pc.Scanning? && PruneInv(c, s.workers[t])
    ensures PruneInv(c, Work(c, s, t, pick).workers[t])
  {
    var w := s.workers[t];
    assert WorkerInv(c, s, t);
    LastFrame(c, s, w);
    if w.pc.edge >= Get(s, w.node).arity {
      SelectPrunes(c, s, t, w.pc.live, w.pc.expanded, pick);
    } else if w.frames[|w.frames| - 1].InTree? {
      VisitPrunes(c, s, t, w.pc.edge, w.pc.live, w.pc.expanded, pick);
    } else {
      RolloutPrunes(c, s, t, w.pc.edge, w.pc.live, w.pc.expanded, pick);
    }
  }

  lemma VisitPrunes(c: Config, s: State, t: nat, i: nat, live: seq<nat>, expanded: seq<nat>, pick: nat)
    requires Inv(c, s) && t < |s.workers| && s.workers[t].pc == Scanning(i, live, expanded) && PruneInv(c, s.workers[t])
    requires AtFrame(s.workers[t]) && s.workers[t].frames[|s.workers[t].frames| - 1].InTree?
    requires i < Get(s, s.workers[t].node).arity
    ensures PruneInv(c, Scan(s, t, i, live, expanded, pick).workers[t])
  {
    var w := s.workers[t];
    if w.node + [i] in s.nodes && !CutNode(s, w.node + [i], w.cut).1 {
      SurvivorPasses(c, s, w.node + [i], w.cut);
    }
  }

  lemma RolloutPrunes(c: Config, s: State, t: nat, i: nat, live: seq<nat>, expanded: seq<nat>, pick: nat)
    requires Inv(c, s) && t < |s.workers| && s.workers[t].pc == Scanning(i, live, expanded) && PruneInv(c, s.workers[t])
    requires AtFrame(s.workers[t]) && s.workers[t].frames[|s.workers[t].frames| - 1].Rollout?
    requires FrameOk(c, s, s.workers[t].frames[|s.workers[t].frames| - 1])
    requires i < Get(s, s.workers[t].node).arity
    ensures PruneInv(c, Scan(s, t, i, live, expanded, pick).workers[t])
  {
    var w := s.workers[t];
    var candidate := w.frames[|w.frames| - 1].candidate;
    if !CutOrCreateChild(s, w.node, i, candidate, w.cut).1 {
      SurvivingChildPasses(c, s, w.node, i, candidate, w.cut);
    }
  }

  lemma SelectPrunes(c: Config, s: State, t: nat, live: seq<nat>, expanded: seq<nat>, pick: nat)
    requires t < |s.workers| && s.workers[t].frames != [] && AllPass(c, s.workers[t], live)
    ensures PruneInv(c, Select(s, t, live, expanded, pick).workers[t])
  {
    if live != [] {
      assert live[pick % |live|] in live;
    }
  }

  // ----- Whole runs -----

  /** Event `k` makes worker `t` read the cut. */
  ghost predicate ReadsCut(run: seq<State>, events: seq<Event>, t: nat, k: nat) {
    && k < |events| && k < |run| && events[k].Worked? && events[k].t == t && t < |run[k].workers|
    && (run[k].workers[t].pc.Loop? || (run[k].workers[t].pc.Refreshing?))
  }

  /** Event `k` is the last one before state `i` at which worker `t` read the cut. */
  ghost predicate LastRead(run: seq<State>, events: seq<Event>, t: nat, k: nat, i: nat) {
    && k < i && ReadsCut(run, events, t, k)
    && forall m :: k < m < i ==> !ReadsCut(run, events, t, m)
  }

  lemma {:induction false} RunPrunes(c: Config, run: seq<State>, events: seq<Event>, i: nat, t: nat)
    requires Run(c, run, events) && i < |run| && t < |run[i].workers|
    ensures PruneInv(c, run[i].workers[t])
  {
    if i > 0 {
      var s, e := run[i - 1], events[i - 1];
      RunInv(c, run, events, i - 1);
      assert Next(c, s, e, run[i - 1 + 1]);
      assert t < |s.workers|;
      RunPrunes(c, run, events, i - 1, t);
      if e.Worked? {
        assert OnlyWorker(s, Work(c, s, e.t, e.pick), e.t);
        WorkPrunes(c, s, e.t, e.pick) by { RunPrunes(c, run, events, i - 1, e.t); }
      }
    }
  }

  predicate SameReads(w: Worker, w': Worker) {
    w'.cut == w.cut && w'.epoch == w.epoch
  }

  lemma SelectReads(s: State, t: nat, live: seq<nat>, expanded: seq<nat>, pick: nat)
    requires t < |s.workers| && s.workers[t].frames != []
    ensures SameReads(s.workers[t], Select(s, t, live, expanded, pick).workers[t])
  {
  }

  lemma ScanReads(s: State, t: nat, i: nat, live: seq<nat>, expanded: seq<nat>, pick: nat)
    requires t < |s.workers| && s.workers[t].frames != []
    ensures SameReads(s.workers[t], Scan(s, t, i, live, expanded, pick).workers[t])
  {
    SelectReads(s, t, live, expanded, pick);
  }

  lemma ExpandReads(s: State, t: nat, i: nat, candidate: Space)
    requires t < |s.workers|
    ensures SameReads(s.workers[t], Acquire(s, t).workers[t])
    ensures SameReads(s.workers[t], ExpandEdge(s, t, i, candidate).workers[t])
    ensures SameReads(s.workers[t], StoreCandidate(s, t, i, candidate).workers[t])
    ensures SameReads(s.workers[t], EnterWalk(s, t, candidate).workers[t])
  {
  }

  /** A worker reads the cut and its epoch nowhere else. */
  lemma WorkReads(c: Config, s: State, t: nat, pick: nat)
    requires t < |s.workers|
    ensures
      var w, w' := s.workers[t], Work(c, s, t, pick).workers[t];
      && w'.cut == (if w.pc.Loop? || w.pc.Refreshing? then s.cut else w.cut)
      && w'.epoch == if w.pc.LoadEpoch? || (w.pc.CheckingEpoch? && w'.pc.Refreshing?) then s.epoch else w.epoch
  {
    match s.workers[t].pc {
      case ExpandAcquire => ExpandReads(s, t, 0, c.space);
      case Expanding(i, candidate) => ExpandReads(s, t, i, candidate);
      case Storing(i, candidate) => ExpandReads(s, t, i, candidate);
      case Walk(candidate) => ExpandReads(s, t, 0, candidate);
      case Scanning(i, live, expanded) => if s.workers[t].frames != [] { ScanReads(s, t, i, live, expanded, pick); }
      case Checking => CheckReads(c, s, t, pick);
      case CheckingEpoch => CheckReads(c, s, t, pick);
      case CheckingNode => CheckReads(c, s, t, pick);
      case CutHere => CheckReads(c, s, t, pick);
      case _ => OtherReads(c, s, t, pick);
    }
  }

  lemma CheckReads(c: Config, s: State, t: nat, pick: nat)
    requires t < |s.workers|
    requires
      var pc := s.workers[t].pc;
      pc.Checking? || pc.CheckingEpoch? || pc.CheckingNode? || pc.CutHere?
    ensures
      var w, w' := s.workers[t], Work(c, s, t, pick).workers[t];
      && w'.cut == (if w.pc.Loop? || w.pc.Refreshing? then s.cut else w.cut)
      && w'.epoch == if w.pc.LoadEpoch? || (w.pc.CheckingEpoch? && w'.pc.Refreshing?) then s.epoch else w.epoch
  {
  }

  lemma OtherReads(c: Config, s: State, t: nat, pick: nat)
    requires t < |s.workers|
    requires
      var pc := s.workers[t].pc;
      && !pc.ExpandAcquire? && !pc.Expanding? && !pc.Storing? && !pc.Walk? && !pc.Scanning?
      && !pc.Checking? && !pc.CheckingEpoch? && !pc.CheckingNode? && !pc.CutHere?
    ensures
      var w, w' := s.workers[t], Work(c, s, t, pick).workers[t];
      && w'.cut == (if w.pc.Loop? || w.pc.Refreshing? then s.cut else w.cut)
      && w'.epoch == if w.pc.LoadEpoch? || (w.pc.CheckingEpoch? && w'.pc.Refreshing?) then s.epoch else w.epoch
  {
  }

  lemma {:induction false} CutSinceRead(c: Config, run: seq<State>, events: seq<Event>, t: nat, k: nat, i: nat)
    requires Run(c, run, events) && LastRead(run, events, t, k, i) && i < |run|
    ensures t < |run[i].workers| && run[i].workers[t].cut == run[k].cut
    decreases i
  {
    var s, e := run[i - 1], events[i - 1];
    assert Next(c, s, e, run[i - 1 + 1]);
    if i - 1 > k {
      CutSinceRead(c, run, events, t, k, i - 1);
    }
    if e.Worked? {
      assert OnlyWorker(s, Work(c, s, e.t, e.pick), e.t);
      WorkReads(c, s, e.t, e.pick);
    }
    assert k < i - 1 ==> !ReadsCut(run, events, t, i - 1);
  }

  /** A worker inside a descent has read the cut. */
  lemma {:induction false} HasRead(c: Config, run: seq<State>, events: seq<Event>, t: nat, i: nat) returns (k: nat)
    requires Run(c, run, events) && i < |run| && t < |run[i].workers|
    requires !run[i].workers[t].pc.Outside? && !run[i].workers[t].pc.Loop?
    ensures LastRead(run, events, t, k, i)
    decreases i
  {
    var s, e := run[i - 1], events[i - 1];
    assert Next(c, s, e, run[i - 1 + 1]);
    if e.Worked? {
      assert OnlyWorker(s, Work(c, s, e.t, e.pick), e.t);
    }
    if ReadsCut(run, events, t, i - 1) {
      k := i - 1;
    } else {
      k := HasRead(c, run, events, t, i - 1);
    }
  }

  /** The cut never rises. */
  lemma {:induction false} CutOnlyFalls(c: Config, run: seq<State>, events: seq<Event>, j: nat, k: nat)
    requires Run(c, run, events) && j <= k < |run|
    ensures run[k].cut.Le(run[j].cut)
    decreases k - j
  {
    if j < k {
      CutOnlyFalls(c, run, events, j, k - 1);
      var s, e := run[k - 1], events[k - 1];
      assert Next(c, s, e, run[k - 1 + 1]);
      if e.Worked? { assert OnlyWorker(s, Work(c, s, e.t, e.pick), e.t); }
      LeTrans(run[k].cut, s.cut, run[j].cut);
    }
  }

  lemma AboveLe(a: Ext, b: Ext, x: real)
    requires a.Above(x) && a.Le(b)
    ensures b.Above(x)
  {
  }

  /** The bound of the candidate at `p` is below every cut published up to state `k`. */
  ghost predicate BelowAllCuts(c: Config, run: seq<State>, p: Path, k: nat) {
    && At(c.space, p).Some?
    && forall j :: 0 <= j <= k < |run| ==> run[j].cut.Above(At(c.space, p).value.bound)
  }

  lemma PassesAllCuts(c: Config, run: seq<State>, events: seq<Event>, t: nat, k: nat, i: nat, p: Path)
    requires Run(c, run, events) && LastRead(run, events, t, k, i) && i < |run|
    requires t < |run[i].workers| && Passes(c, run[i].workers[t].cut, p)
    ensures BelowAllCuts(c, run, p, k)
  {
    CutSinceRead(c, run, events, t, k, i);
    forall j | 0 <= j <= k ensures run[j].cut.Above(At(c.space, p).value.bound) {
      CutOnlyFalls(c, run, events, j, k);
      AboveLe(run[k].cut, run[j].cut, At(c.space, p).value.bound);
    }
  }

  /**
   An implementation is only handed out if its bound is below the initial cut and all the cuts
   published up to the last time the worker read the cut: when it started the descent, or later.
   */
  lemma HandedOutBelowCuts(c: Config, run: seq<State>, events: seq<Event>, i: nat, q: Path) returns (t: nat, k: nat)
    requires Run(c, run, events) && i < |events| && q !in run[i].handed && q in run[i + 1].handed
    ensures events[i].Worked? && events[i].t == t && LastRead(run, events, t, k, i)
    ensures IsImplementation(c.space, q) && BelowAllCuts(c, run, q, k)
  {
    var s, e := run[i], events[i];
    RunInv(c, run, events, i + 1);
    assert Next(c, s, e, run[i + 1]);
    t := e.t;
    HandsOutHere(c, s, t, e.pick, q);
    RunPrunes(c, run, events, i, t);
    k := HasRead(c, run, events, t, i);
    PassesAllCuts(c, run, events, t, k, i, q);
  }

  lemma HandsOutHere(c: Config, s: State, t: nat, pick: nat, q: Path)
    requires t < |s.workers| && q !in s.handed && q in Work(c, s, t, pick).handed
    ensures s.workers[t].pc.Walk? && s.workers[t].node == q
  {
  }

  /** The same for a child selected among those of the last frame, to be expanded or walked to. */
  lemma SelectedBelowCuts(c: Config, run: seq<State>, events: seq<Event>, i: nat, t: nat) returns (k: nat)
    requires Run(c, run, events) && i < |events| && events[i].Worked? && events[i].t == t && t < |run[i].workers|
    requires run[i].workers[t].pc.Scanning? && run[i + 1].workers[t].node != run[i].workers[t].node
    ensures LastRead(run, events, t, k, i)
    ensures
      var p, q := run[i].workers[t].node, run[i + 1].workers[t].node;
      q != [] && Parent(q) == p && BelowAllCuts(c, run, q, k)
  {
    var s, e := run[i], events[i];
    RunInv(c, run, events, i);
    assert WorkerInv(c, s, t) && Next(c, s, e, run[i + 1]);
    RunPrunes(c, run, events, i, t);
    ChildSelected(c, s, t, e.pick);
    k := HasRead(c, run, events, t, i);
    PassesAllCuts(c, run, events, t, k, i, run[i + 1].workers[t].node);
  }

  lemma ChildSelected(c: Config, s: State, t: nat, pick: nat)
    requires t < |s.workers| && s.workers[t].pc.Scanning? && AtFrame(s.workers[t]) && PruneInv(c, s.workers[t])
    requires Work(c, s, t, pick).workers[t].node != s.workers[t].node
    ensures
      var w, q := s.workers[t], Work(c, s, t, pick).workers[t].node;
      q != [] && Parent(q) == w.node && Passes(c, w.cut, q)
  {
    var w := s.workers[t];
    var live, expanded := w.pc.live, w.pc.expanded;
    assert w.pc.edge >= Get(s, w.node).arity;
    if live != [] {
      assert live[pick % |live|] in live;
      assert Parent(w.node + [live[pick % |live|]]) == w.node;
    } else {
      assert expanded[pick % |expanded|] in expanded;
      assert Parent(w.node + [expanded[pick % |expanded|]]) == w.node;
    }
  }

  /** The same for a node whose candidate is taken to be expanded. */
  lemma ExpandedBelowCuts(c: Config, run: seq<State>, events: seq<Event>, i: nat, p: Path) returns (k: nat)
    requires Run(c, run, events) && i < |events| && Takes(run[i], events[i], p)
    ensures LastRead(run, events, events[i].t, k, i) && BelowAllCuts(c, run, p, k)
  {
    var t := events[i].t;
    RunPrunes(c, run, events, i, t);
    k := HasRead(c, run, events, t, i);
    PassesAllCuts(c, run, events, t, k, i, p);
  }

  // ----- How recent the cut is -----

  /** Event `m` makes worker `t` remember the epoch of the cut. */
  ghost predicate ReadsEpoch(run: seq<State>, events: seq<Event>, t: nat, m: nat) {
    && m < |events| && m + 1 < |run| && events[m].Worked? && events[m].t == t
    && t < |run[m].workers| && t < |run[m + 1].workers|
    && (run[m].workers[t].pc.LoadEpoch? || (run[m].workers[t].pc.CheckingEpoch? && run[m + 1].workers[t].pc.Refreshing?))
  }

  ghost predicate LastEpoch(run: seq<State>, events: seq<Event>, t: nat, m: nat, i: nat) {
    && m < i && ReadsEpoch(run, events, t, m)
    && forall n :: m < n < i ==> !ReadsEpoch(run, events, t, n)
  }

  lemma {:induction false} EpochSinceRead(c: Config, run: seq<State>, events: seq<Event>, t: nat, m: nat, i: nat)
    requires Run(c, run, events) && LastEpoch(run, events, t, m, i) && i < |run|
    ensures t < |run[i].workers| && run[i].workers[t].epoch == run[m].epoch
    decreases i
  {
    var s, e := run[i - 1], events[i - 1];
    assert Next(c, s, e, run[i - 1 + 1]);
    if i - 1 > m {
      EpochSinceRead(c, run, events, t, m, i - 1);
    }
    if e.Worked? {
      assert OnlyWorker(s, Work(c, s, e.t, e.pick), e.t);
      WorkReads(c, s, e.t, e.pick);
    }
    assert m < i - 1 ==> !ReadsEpoch(run, events, t, i - 1);
  }

  /** While the epoch stays the same, so does the cut. */
  lemma {:induction false} SameEpochSameCut(c: Config, run: seq<State>, events: seq<Event>, m: nat, i: nat)
    requires Run(c, run, events) && m <= i < |run|
    ensures run[m].epoch <= run[i].epoch
    ensures run[m].epoch == run[i].epoch ==> forall j :: m <= j <= i ==> run[j].cut == run[m].cut
    decreases i - m
  {
    if m < i {
      SameEpochSameCut(c, run, events, m, i - 1);
      var s, e := run[i - 1], events[i - 1];
      assert Next(c, s, e, run[i - 1 + 1]);
      if e.Worked? { assert OnlyWorker(s, Work(c, s, e.t, e.pick), e.t); }
    }
  }

  /**
   A worker that finds its epoch unchanged knows the present cut, unless a lower cut was
   published after it read the cut and before it remembered the epoch: a cursor reads them in
   this order, a check the other way round.
   */
  lemma UnchangedEpochIff(c: Config, run: seq<State>, events: seq<Event>, i: nat, t: nat, k: nat, m: nat)
    requires Run(c, run, events) && i < |events| && events[i].Worked? && events[i].t == t && t < |run[i].workers|
    requires run[i].workers[t].pc.CheckingEpoch? && run[i + 1].workers[t].pc.CheckingNode?
    requires LastRead(run, events, t, k, i) && LastEpoch(run, events, t, m, i)
    ensures run[i].workers[t].cut == run[i].cut <==> k < m ==> run[k].cut == run[m].cut
  {
    assert Next(c, run[i], events[i], run[i + 1]);
    CutSinceRead(c, run, events, t, k, i);
    EpochSinceRead(c, run, events, t, m, i);
    SameEpochSameCut(c, run, events, m, i);
  }
}
