/** What the invariant says about whole runs of the tree search. */
module SearchTheorems {
  import opened Wrappers
  import opened Extended
  import opened SearchTree
  import opened SearchInvariant
  import opened SearchSteps

  // ----- Pruning -----

  /** Every dead node was rejected, cut, handed out, or has only dead children. */
  lemma DeadNodesAreJustified(c: Config, run: seq<State>, events: seq<Event>, i: nat, p: Path)
    requires Run(c, run, events) && i < |run|
    requires p in run[i].nodes && run[i].nodes[p].dead
    ensures
      var s, space := run[i], At(c.space, p);
      || space == None
      || !s.cut.Above(space.value.bound)
      || (space.value.children == [] && p in s.handed)
      || (space.value.children != [] &&
          forall k: nat :: k < |space.value.children| ==> p + [k] in s.nodes && s.nodes[p + [k]].dead)
  {
    RunInv(c, run, events, i);
    assert NodeInv(c, run[i], p);
    var n := run[i].nodes[p];
    if n.arity > 0 && forall k: nat :: k < n.arity ==> IsChild(run[i], p, k) && run[i].nodes[p + [k]].dead {
      forall k: nat | k < n.arity ensures p + [k] in run[i].nodes && run[i].nodes[p + [k]].dead {
        assert IsChild(run[i], p, k);
      }
    }
  }

  /** A prefix of a path that exists exists as well. */
  lemma {:induction false} AtPrefix(root: Space, q: Path, k: nat)
    requires k <= |q| && At(root, q).Some?
    ensures At(root, q[..k]).Some?
    ensures k < |q| ==> q[k] < |At(root, q[..k]).value.children|
    decreases |q| - k
  {
    if k == |q| {
      assert q[..k] == q;
    } else {
      AtPrefix(root, q, k + 1);
      assert Parent(q[..k + 1]) == q[..k];
    }
  }

  /** An implementation below a node of bound at least the cut. */
  ghost predicate BelowCut(c: Config, cut: Ext, q: Path) {
    exists k: nat :: k <= |q| && At(c.space, q[..k]).Some? && !cut.Above(At(c.space, q[..k]).value.bound)
  }

  lemma {:induction false} DeadCovers(c: Config, s: State, q: Path, k: nat)
    requires SharedInv(c, s) && IsImplementation(c.space, q) && k <= |q|
    requires q[..k] in s.nodes && s.nodes[q[..k]].dead
    ensures q in s.handed || BelowCut(c, s.cut, q)
    decreases |q| - k
  {
    var p := q[..k];
    assert k == |q| ==> p == q;
    AtPrefix(c.space, q, k);
    assert NodeInv(c, s, p);
    if s.nodes[p].arity == 0 {
      if k < |q| {
        assert false;
      }
      assert p == q;
    } else if s.cut.Above(s.nodes[p].bound.value) {
      if k == |q| {
        assert false;
      }
      assert IsChild(s, p, q[k]);
      assert q[..k + 1] == p + [q[k]];
      DeadCovers(c, s, q, k + 1);
    }
  }

  lemma {:induction false} FinishedForEver(c: Config, run: seq<State>, events: seq<Event>, i: nat, j: nat, t: nat)
    requires Run(c, run, events) && i <= j < |run|
    requires t < |run[i].workers| && run[i].workers[t].pc.Finished?
    ensures t < |run[j].workers| && run[j].workers[t] == run[i].workers[t]
    decreases j
  {
    if i < j {
      FinishedForEver(c, run, events, i, j - 1, t);
      assert Next(c, run[j - 1], events[j - 1], run[j - 1 + 1]);
      if events[j - 1].Worked? && events[j - 1].t != t {
        var e := events[j - 1];
        assert OnlyWorker(run[j - 1], Work(c, run[j - 1], e.t, e.pick), e.t);
      }
    }
  }

  /**
   Once `explore` has returned no candidate and nobody stopped the search, every
   implementation was handed out or lies at or below a node whose bound reaches the cut;
   this also holds in every later state, whose cut is at most the present one.
   */
  lemma ExhaustedSearchLosesNothing(c: Config, run: seq<State>, events: seq<Event>, i: nat, j: nat, t: nat)
    requires Run(c, run, events) && i <= j < |run|
    requires t < |run[i].workers| && run[i].workers[t].pc.Finished? && !run[i].stop
    ensures forall q :: IsImplementation(c.space, q) ==> q in run[j].handed || BelowCut(c, run[j].cut, q)
  {
    RunInv(c, run, events, i);
    RunInv(c, run, events, j);
    FinishedForEver(c, run, events, i, j, t);
    assert WorkerInv(c, run[i], t);
    assert WorkerInv(c, run[j], t);
    forall q | IsImplementation(c.space, q)
      ensures q in run[j].handed || BelowCut(c, run[j].cut, q)
    {
      assert q[..0] == [];
      DeadCovers(c, run[j], q, 0);
    }
  }

  /** With admissible bounds, an implementation that was not handed out is no faster than the cut. */
  lemma NothingWorthEvaluatingIsLost(
      c: Config, run: seq<State>, events: seq<Event>, i: nat, j: nat, t: nat, runtime: Path -> real)
    requires Run(c, run, events) && i <= j < |run|
    requires t < |run[i].workers| && run[i].workers[t].pc.Finished? && !run[i].stop
    requires forall q, k: nat :: IsImplementation(c.space, q) && k <= |q| && At(c.space, q[..k]).Some? ==>
               At(c.space, q[..k]).value.bound <= runtime(q)
    ensures forall q :: IsImplementation(c.space, q) && run[j].cut.Above(runtime(q)) ==> q in run[j].handed
  {
    ExhaustedSearchLosesNothing(c, run, events, i, j, t);
  }

  // ----- The cut -----

  /** The cut is the least of the initial cut and of the cuts published so far. */
  lemma {:induction false} CutIsLeastPublished(c: Config, run: seq<State>, events: seq<Event>, i: nat)
    requires Run(c, run, events) && i < |run|
    ensures run[i].cut.Le(c.initialCut)
    ensures forall k :: 0 <= k < i && events[k].UpdateCut? ==> run[i].cut.Le(events[k].cut)
    ensures run[i].cut == c.initialCut || exists k :: 0 <= k < i && events[k] == UpdateCut(run[i].cut)
  {
    if i > 0 {
      CutIsLeastPublished(c, run, events, i - 1);
      var s, e, s' := run[i - 1], events[i - 1], run[i - 1 + 1];
      assert Next(c, s, e, s');
      if e.Worked? { assert OnlyWorker(s, Work(c, s, e.t, e.pick), e.t); }
      assert s'.cut == s.cut || e == UpdateCut(s'.cut);
      forall k | 0 <= k < i && events[k].UpdateCut? ensures run[i].cut.Le(events[k].cut) {
        if k < i - 1 { LeTrans(s'.cut, s.cut, events[k].cut); }
      }
      LeTrans(s'.cut, s.cut, c.initialCut);
    }
  }

  // ----- Dead nodes stay dead -----

  lemma DeadStays(c: Config, s: State, e: Event, s': State, p: Path)
    requires Inv(c, s) && Next(c, s, e, s') && DeadAt(s, p)
    ensures DeadAt(s', p)
  {
    if e.Worked? && !s.workers[e.t].pc.Finished? && !s.workers[e.t].pc.Panicked? {
      WorkKeeps(c, s, e.t, e.pick);
    }
  }

  lemma {:induction false} DeadForEver(c: Config, run: seq<State>, events: seq<Event>, i: nat, j: nat, p: Path)
    requires Run(c, run, events) && i <= j < |run| && DeadAt(run[i], p)
    ensures DeadAt(run[j], p)
    decreases j - i
  {
    if i < j {
      RunInv(c, run, events, i);
      DeadStays(c, run[i], events[i], run[i + 1], p);
      DeadForEver(c, run, events, i + 1, j, p);
    }
  }

  /** Event `i` makes worker `t` return the implementation `q` and continue outside of `explore`. */
  ghost predicate Returns(run: seq<State>, events: seq<Event>, i: nat, t: nat, q: Path) {
    && i < |events| && i < |run| && events[i].Worked? && events[i].t == t && t < |run[i].workers|
    && run[i].workers[t].pc.Handing? && run[i].workers[t].node == q
  }

  /**
   An implementation that was returned is never chosen again: by none of the workers, at no
   later cut, and in no later restart. Only descents that chose it before may still return it.
   */
  lemma ReturnedOnce(c: Config, run: seq<State>, events: seq<Event>, i: nat, j: nat, t: nat, u: nat, q: Path)
    requires Run(c, run, events) && i < j < |events| && Returns(run, events, i, t, q)
    requires u < |run[j].workers| && run[j].workers[u].pc.Walk? && run[j].workers[u].node == q
    requires events[j].Worked? && events[j].t == u
    ensures !run[j + 1].workers[u].pc.Handing?
  {
    RunInv(c, run, events, i);
    assert WorkerInv(c, run[i], t);
    assert Next(c, run[i], events[i], run[i + 1]) && Next(c, run[j], events[j], run[j + 1]);
    DeadForEver(c, run, events, i + 1, j, q);
  }

  // ----- Candidate ownership -----

  /**
   A live unexpanded node that is the root or the child of an expanded node holds its
   candidate unless a worker is expanding it, and no edge of an expanded node is empty.
   */
  lemma ExplicitTreeOwnsCandidates(c: Config, run: seq<State>, events: seq<Event>, i: nat, p: Path)
    requires Run(c, run, events) && i < |run| && p in run[i].nodes
    ensures
      var s, n := run[i], run[i].nodes[p];
      && (n.Live() && !n.expanded && n.lock == None &&
          (p == [] || (Parent(p) in s.nodes && s.nodes[Parent(p)].expanded)) ==>
            n.candidate.Some? && n.candidate == At(c.space, p))
      && (n.expanded ==> At(c.space, p).Some?)
      && (n.expanded ==> forall k: nat :: k < |At(c.space, p).value.children| ==> p + [k] in s.nodes)
  {
    RunInv(c, run, events, i);
    assert NodeInv(c, run[i], p);
    var n := run[i].nodes[p];
    if n.expanded {
      forall k: nat | k < n.arity ensures p + [k] in run[i].nodes {
        assert IsChild(run[i], p, k);
      }
    }
  }

  /**
   No assertion or unwrap of the descent fails, except the two on entry of the explicit tree:
   a worker that raced with the death of the root, or a root that is itself an implementation.
   */
  lemma OnlyRootRacesPanic(c: Config, run: seq<State>, events: seq<Event>, i: nat, t: nat)
    requires Run(c, run, events) && i < |run| && t < |run[i].workers| && run[i].workers[t].pc.Panicked?
    ensures var reason := run[i].workers[t].pc.reason;
            || (reason == NotInTree && run[i].nodes.Keys >= {[]} && run[i].nodes[[]].dead)
            || (reason == ImplementationInTree && c.space.children == [])
  {
    RunInv(c, run, events, i);
    assert WorkerInv(c, run[i], t);
  }

  /** Event `e` makes a worker take the candidate of `p` in order to expand it. */
  ghost predicate Takes(s: State, e: Event, p: Path) {
    && e.Worked? && e.t < |s.workers|
    && s.workers[e.t].pc.ExpandAcquire? && s.workers[e.t].node == p
    && p in s.nodes && !s.nodes[p].expanded && s.nodes[p].lock == None && s.nodes[p].candidate.Some?
  }

  /** Only a restart makes a node leave the set of taken nodes. */
  lemma TakenGrows(c: Config, s: State, e: Event, s': State)
    requires Next(c, s, e, s') && e != Restart
    ensures s.taken <= s'.taken
  {
  }

  lemma {:induction false} TakenUntilRestart(c: Config, run: seq<State>, events: seq<Event>, i: nat, j: nat, p: Path)
    requires Run(c, run, events) && i <= j < |run| && p in run[i].taken
    requires forall k :: i <= k < j ==> events[k] != Restart
    ensures p in run[j].taken
    decreases j - i
  {
    if i < j {
      assert Next(c, run[i], events[i], run[i + 1]);
      TakenGrows(c, run[i], events[i], run[i + 1]);
      TakenUntilRestart(c, run, events, i + 1, j, p);
    }
  }

  /** A node is expanded at most once between two restarts, and with its own candidate. */
  lemma CandidateTakenOncePerRestart(
      c: Config, run: seq<State>, events: seq<Event>, i: nat, j: nat, p: Path)
    requires Run(c, run, events) && i < j < |events|
    requires Takes(run[i], events[i], p) && Takes(run[j], events[j], p)
    ensures exists k :: i < k < j && events[k] == Restart
    ensures run[i].nodes[p].candidate == At(c.space, p)
  {
    RunInv(c, run, events, i);
    RunInv(c, run, events, j);
    assert NodeInv(c, run[i], p);
    assert NodeInv(c, run[j], p);
    assert Next(c, run[i], events[i], run[i + 1]);
    assert p in run[i + 1].taken;
    if forall k :: i < k < j ==> events[k] != Restart {
      TakenUntilRestart(c, run, events, i + 1, j, p);
      assert false;
    }
  }

  // ----- Locks -----

  /** A worker only waits for another one that can take a step: locks never deadlock. */
  lemma BlockedByRunnableWorker(c: Config, run: seq<State>, events: seq<Event>, i: nat, t: nat)
    requires Run(c, run, events) && i < |run| && t < |run[i].workers| && Blocked(run[i], t)
    ensures exists u :: 0 <= u < |run[i].workers| && u != t && HoldsLock(run[i].workers[u]) && !Blocked(run[i], u)
  {
    RunInv(c, run, events, i);
    var s := run[i];
    var w := s.workers[t];
    assert WorkerInv(c, s, t);
    var p := if w.pc.Sorting? then w.node + [w.pc.edge] else w.node;
    assert p in s.nodes && s.nodes[p].lock.Some?;
    var u := s.nodes[p].lock.value;
    assert HoldsLock(s.workers[u]) && !Blocked(s, u);
  }

  /** The candidate a worker hands out is the one its actions lead to. */
  lemma WalkHoldsCandidateOfNode(c: Config, run: seq<State>, events: seq<Event>, i: nat, t: nat)
    requires Run(c, run, events) && i < |run| && t < |run[i].workers| && run[i].workers[t].pc.Walk?
    ensures At(c.space, run[i].workers[t].node) == Some(run[i].workers[t].pc.candidate)
  {
    RunInv(c, run, events, i);
    assert WorkerInv(c, run[i], t);
  }
}
