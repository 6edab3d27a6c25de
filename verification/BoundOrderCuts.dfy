/** What the published cuts do to the queue: the distance to the best result and the stop bound take effect. */
module BoundOrderCuts {
  import opened Wrappers
  import opened Extended
  import opened CandidateLists
  import opened BoundOrder
  import opened BoundOrderOptimality

  ghost predicate AllAdmissible(c: Config) {
    forall k :: 0 <= k < |c.initial| ==> Admissible(c.initial[k])
  }

  /** Every queued candidate has a bound below the cut. */
  ghost predicate QueueBelow(s: State) {
    forall d :: d in s.queue ==> s.cut.Above(d.bound)
  }

  /** The cut is the one published for the best result, or the one that stops the search. */
  ghost predicate CutIs(c: Config, s: State)
    requires c.Valid()
  {
    || s.cut == Fin(0.0)
    || s.cut == if s.monitorBest.None? then Inf else c.NewCut(s.monitorBest.value.1)
  }

  /** Neither the cut nor the best result is above those of `s`. */
  ghost predicate Lower(s': State, s: State) {
    s'.cut.Le(s.cut) && BestEval(s'.monitorBest).Le(BestEval(s.monitorBest))
  }

  lemma LowerTrans(s'': State, s': State, s: State)
    requires Lower(s'', s') && Lower(s', s)
    ensures Lower(s'', s)
  {
  }

  lemma NextKeepsQueue(c: Config, s: State, e: Event, s': State)
    requires c.Valid() && QueueBelow(s) && Next(c, s, e, s')
    ensures QueueBelow(s')
  {
    if e.Insert? {
      forall d | d in s'.queue ensures s'.cut.Above(d.bound) {
        InsertAllContains(s.queue, s.cut, s.workers[e.t].candidate.children, d);
      }
    }
  }

  lemma NextKeepsCutIs(c: Config, s: State, e: Event, s': State)
    requires c.Valid() && Inv(c, s) && CutIs(c, s) && Next(c, s, e, s')
    ensures CutIs(c, s') && Lower(s', s)
  {
    if e.Handle? {
      HandleKeepsCut(c, s, s');
      HandleKeepsMessages(c, s, s');
    }
  }

  lemma {:induction false} RunKeeps(c: Config, run: seq<State>, events: seq<Event>, i: nat)
    requires c.Valid() && Run(c, run, events) && i < |run|
    requires AllAdmissible(c)
    ensures QueueBelow(run[i]) && CutIs(c, run[i]) && Inv(c, run[i])
  {
    RunInv(c, run, events, i);
    if i == 0 {
      forall d | d in run[0].queue ensures run[0].cut.Above(d.bound) {
        InsertAllContains(multiset{}, Inf, c.initial, d);
      }
    } else {
      RunKeeps(c, run, events, i - 1);
      NextKeepsQueue(c, run[i - 1], events[i - 1], run[i - 1 + 1]);
      NextKeepsCutIs(c, run[i - 1], events[i - 1], run[i - 1 + 1]);
    }
  }

  lemma StepLower(c: Config, run: seq<State>, events: seq<Event>, i: nat)
    requires c.Valid() && Run(c, run, events) && i < |events|
    requires AllAdmissible(c)
    ensures Lower(run[i + 1], run[i])
  {
    RunKeeps(c, run, events, i);
    NextKeepsCutIs(c, run[i], events[i], run[i + 1]);
  }

  /** Neither the cut nor the best result ever rises. */
  lemma {:induction false} OnlyFalls(c: Config, run: seq<State>, events: seq<Event>, i: nat, n: nat)
    requires c.Valid() && Run(c, run, events) && i + n < |run|
    requires AllAdmissible(c)
    ensures Lower(run[i + n], run[i])
    decreases n
  {
    if n > 0 {
      OnlyFalls(c, run, events, i, n - 1);
      StepLower(c, run, events, i + (n - 1));
      LowerTrans(run[i + (n - 1) + 1], run[i + (n - 1)], run[i]);
    }
  }

  /** A result below the stop bound empties the queue for good. */
  lemma StopBoundEmptiesQueue(c: Config, run: seq<State>, events: seq<Event>, i: nat, j: nat)
    requires c.Valid() && Run(c, run, events) && i <= j < |run|
    requires AllAdmissible(c)
    requires run[i].monitorBest.Some? && run[i].monitorBest.value.1.Fin?
    requires c.stopBound.Some? && run[i].monitorBest.value.1.v < c.stopBound.value
    ensures run[j].queue == multiset{} && run[j].cut == Fin(0.0)
  {
    RunKeeps(c, run, events, i);
    RunKeeps(c, run, events, j);
    OnlyFalls(c, run, events, i, j - i);
    assert forall d :: d in run[j].queue ==> Below(c, d);
  }

  /**
   Every queued candidate may still beat the best result by more than the allowed distance: its
   bound is below the result, and below (1 - distance / 100) times the result when a distance is set.
   */
  lemma QueueMayImprove(c: Config, run: seq<State>, events: seq<Event>, i: nat, d: Candidate)
    requires c.Valid() && Run(c, run, events) && i < |run|
    requires AllAdmissible(c)
    requires d in run[i].queue && run[i].monitorBest.Some? && run[i].monitorBest.value.1.Fin?
    ensures
      var v := run[i].monitorBest.value.1.v;
      && d.bound < v
      && (c.distanceToBest.Some? ==> d.bound < (1.0 - c.distanceToBest.value / 100.0) * v)
      && (c.stopBound.Some? ==> v >= c.stopBound.value)
  {
    RunKeeps(c, run, events, i);
    var eval := run[i].monitorBest.value.1;
    assert Below(c, d) && run[i].cut.Above(d.bound);
    NewCutMonotone(c, eval, eval);
  }
}
