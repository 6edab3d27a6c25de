/** Once the search drains, no valid implementation beats the best one by more than allowed. */
module BoundOrderOptimality {
  import opened Wrappers
  import opened Extended
  import opened CandidateLists
  import opened BoundOrder

  ghost predicate IsLeafOf(i: Candidate, c: Candidate) {
    match c
    case Implementation(_, _, _) => i == c
    case Choice(_, children) => exists k :: 0 <= k < |children| && IsLeafOf(i, children[k])
  }

  /** Bounds are not negative and never exceed the runtime of an implementation below them. */
  ghost predicate Admissible(c: Candidate) {
    && c.bound >= 0.0
    && (forall i :: IsLeafOf(i, c) && i.Implementation? && i.runtime.Fin? ==> c.bound <= i.runtime.v)
    && (c.Choice? ==> forall k :: 0 <= k < |c.children| ==> Admissible(c.children[k]))
  }

  ghost predicate InSpace(c: Config, i: Candidate) {
    exists k :: 0 <= k < |c.initial| && IsLeafOf(i, c.initial[k])
  }

  /** A correct implementation of the search space whose measurement succeeds. */
  ghost predicate Counts(c: Config, i: Candidate) {
    i.Implementation? && i.valid && i.runtime.Fin? && InSpace(c, i)
  }

  // ----- Candidates stay inside the search space -----

  ghost predicate Below(c: Config, d: Candidate) {
    Admissible(d) && forall i :: IsLeafOf(i, d) ==> InSpace(c, i)
  }

  ghost predicate AllBelow(c: Config, candidates: multiset<Candidate>) {
    forall d :: d in candidates ==> Below(c, d)
  }

  ghost predicate WorkersBelow(c: Config, workers: seq<Worker>) {
    forall t :: 0 <= t < |workers| && workers[t].Holding? ==> Below(c, workers[t].candidate)
  }

  ghost predicate SpaceInv(c: Config, s: State) {
    && AllBelow(c, s.queue)
    && AllBelow(c, s.pending)
    && WorkersBelow(c, s.workers)
    && forall d :: d in s.pending ==> d.Implementation?
  }

  // ----- No implementation is forgotten -----

  ghost predicate Queued(queue: multiset<Candidate>, i: Candidate) {
    exists d :: d in queue && IsLeafOf(i, d)
  }

  ghost predicate Held(workers: seq<Worker>, i: Candidate) {
    exists t :: 0 <= t < |workers| && workers[t].Holding? && IsLeafOf(i, workers[t].candidate)
  }

  /** `i` is no better than what is already known, or its evaluation is still to come. */
  ghost predicate Covered(s: State, i: Candidate)
    requires i.Implementation? && i.runtime.Fin?
  {
    || !s.cut.Above(i.runtime.v)
    || !s.best.Above(i.runtime.v)
    || i in s.pending
    || Queued(s.queue, i)
    || Held(s.workers, i)
  }

  ghost predicate CoverInv(c: Config, s: State) {
    forall i :: Counts(c, i) ==> Covered(s, i)
  }

  // ----- Results reach the monitor in the order in which they were sent -----

  ghost function BestEval(monitorBest: Option<(Candidate, Ext)>): Ext {
    if monitorBest.None? then Inf else monitorBest.value.1
  }

  /** The least of `start` and of the evaluations sent. */
  ghost function LeastOf(start: Ext, messages: seq<(Candidate, Ext)>): Ext {
    if messages == [] then start
    else LeastOf(start, messages[..|messages| - 1]).Min(messages[|messages| - 1].1)
  }

  ghost predicate Reports(c: Config, m: (Candidate, Ext)) {
    Counts(c, m.0) && m.0.runtime == m.1 && m.1.Fin? && m.1.v >= 0.0
  }

  /** A message reports a checked implementation, or is no better than what was sent before it. */
  ghost predicate MessageOk(c: Config, start: Ext, messages: seq<(Candidate, Ext)>, k: nat)
    requires k < |messages|
  {
    messages[k].1.Inf? || Reports(c, messages[k]) || LeastOf(start, messages[..k]).Le(messages[k].1)
  }

  ghost predicate MessageInv(c: Config, messages: seq<(Candidate, Ext)>, monitorBest: Option<(Candidate, Ext)>, best: Ext) {
    && best == LeastOf(BestEval(monitorBest), messages)
    && (monitorBest.Some? && monitorBest.value.1.Fin? ==> Reports(c, monitorBest.value))
    && forall k :: 0 <= k < |messages| ==> MessageOk(c, BestEval(monitorBest), messages, k)
  }

  ghost predicate CutInv(c: Config, s: State)
    requires c.Valid()
  {
    && (!s.stopped ==> s.cut == if s.monitorBest.None? then Inf else c.NewCut(s.monitorBest.value.1))
    && (s.cut.Fin? ==> s.cut.v >= 0.0)
  }

  ghost predicate Inv(c: Config, s: State)
    requires c.Valid()
  {
    SpaceInv(c, s) && CoverInv(c, s) && MessageInv(c, s.messages, s.monitorBest, s.best) && CutInv(c, s)
  }

  lemma NewCutMonotone(c: Config, a: Ext, b: Ext)
    requires c.Valid() && a.Le(b) && (a.Fin? ==> a.v >= 0.0)
    ensures c.NewCut(a).Le(c.NewCut(b)) && c.NewCut(a).Le(a)
    ensures c.NewCut(a).Fin? ==> c.NewCut(a).v >= 0.0
  {
    if c.distanceToBest.Some? && a.Fin? {
      var f := 1.0 - c.distanceToBest.value / 100.0;
      assert 0.0 < f <= 1.0;
      Scaled(f, a.v);
      if b.Fin? {
        Scaled(f, b.v);
        Scaled(f, b.v - a.v);
        assert f * b.v == f * a.v + f * (b.v - a.v);
      }
    }
  }

  lemma Scaled(f: real, x: real)
    requires 0.0 < f <= 1.0 && x >= 0.0
    ensures 0.0 <= f * x <= x
  {
    assert (1.0 - f) * x >= 0.0;
  }

  lemma BelowChild(c: Config, d: Candidate, k: nat)
    requires Below(c, d) && d.Choice? && k < |d.children|
    ensures Below(c, d.children[k])
  {
    forall i | IsLeafOf(i, d.children[k]) ensures InSpace(c, i) {
      assert IsLeafOf(i, d);
    }
  }

  // ----- Workers -----

  lemma HeldElsewhere(workers: seq<Worker>, t: nat, w: Worker, i: Candidate)
    requires t < |workers| && Held(workers, i)
    ensures Held(workers[t := w], i) || (workers[t].Holding? && IsLeafOf(i, workers[t].candidate))
  {
    var u :| 0 <= u < |workers| && workers[u].Holding? && IsLeafOf(i, workers[u].candidate);
    if u != t {
      assert workers[t := w][u] == workers[u];
    }
  }

  lemma HeldNotified(workers: seq<Worker>, i: Candidate)
    requires Held(workers, i)
    ensures Held(NotifyAll(workers), i)
  {
    var u :| 0 <= u < |workers| && workers[u].Holding? && IsLeafOf(i, workers[u].candidate);
    assert NotifyAll(workers)[u] == workers[u];
  }

  /** A worker that holds nothing takes the least candidate, sleeps or returns. */
  lemma AttemptCovers(s: State, counter: int, t: nat, s': State, i: Candidate)
    requires t < |s.workers| && !s.workers[t].Holding? && Attempt(s.(counter := counter), t, s')
    requires i.Implementation? && i.runtime.Fin? && Covered(s, i)
    ensures Covered(s', i)
  {
    if Held(s.workers, i) {
      HeldElsewhere(s.workers, t, Finished, i);
      HeldElsewhere(s.workers, t, s'.workers[t], i);
      HeldNotified(s.workers[t := Finished], i);
    } else if Queued(s.queue, i) {
      var d :| d in s.queue && IsLeafOf(i, d);
      if d !in s'.queue {
        assert s'.workers[t] == Holding(d);
      }
    }
  }

  lemma AttemptKeepsInv(c: Config, s: State, counter: int, t: nat, s': State)
    requires c.Valid() && Inv(c, s) && t < |s.workers| && !s.workers[t].Holding?
    requires Attempt(s.(counter := counter), t, s')
    ensures Inv(c, s')
  {
    forall i | Counts(c, i) ensures Covered(s', i) {
      AttemptCovers(s, counter, t, s', i);
    }
  }

  lemma InsertCovers(c: Config, s: State, t: nat, s': State, i: Candidate)
    requires c.Valid() && SpaceInv(c, s) && Next(c, s, Insert(t), s')
    requires i.Implementation? && i.runtime.Fin? && Covered(s, i)
    ensures Covered(s', i)
  {
    var parent := s.workers[t].candidate;
    if Queued(s.queue, i) {
      var d :| d in s.queue && IsLeafOf(i, d);
      InsertAllContains(s.queue, s.cut, parent.children, d);
    } else if Held(s.workers, i) {
      HeldElsewhere(s.workers, t, Running, i);
      if Held(s.workers[t := Running], i) {
        HeldNotified(s.workers[t := Running], i);
      } else {
        var k :| 0 <= k < |parent.children| && IsLeafOf(i, parent.children[k]);
        InsertAllContains(s.queue, s.cut, parent.children, parent.children[k]);
        BelowChild(c, parent, k);
      }
    }
  }

  lemma InsertKeepsSpace(c: Config, s: State, t: nat, s': State)
    requires c.Valid() && SpaceInv(c, s) && Next(c, s, Insert(t), s')
    ensures SpaceInv(c, s')
  {
    var parent := s.workers[t].candidate;
    forall d | d in s'.queue ensures Below(c, d) {
      InsertAllContains(s.queue, s.cut, parent.children, d);
      if d !in s.queue {
        var k :| 0 <= k < |parent.children| && parent.children[k] == d;
        BelowChild(c, parent, k);
      }
    }
  }

  lemma InsertKeepsInv(c: Config, s: State, t: nat, s': State)
    requires c.Valid() && Inv(c, s) && Next(c, s, Insert(t), s')
    ensures Inv(c, s')
  {
    InsertKeepsSpace(c, s, t, s');
    forall i | Counts(c, i) ensures Covered(s', i) {
      InsertCovers(c, s, t, s', i);
    }
  }

  lemma HandOutCovers(c: Config, s: State, t: nat, s': State, i: Candidate)
    requires c.Valid() && Next(c, s, HandOut(t), s')
    requires i.Implementation? && i.runtime.Fin? && Covered(s, i)
    ensures Covered(s', i)
  {
    if Held(s.workers, i) {
      HeldElsewhere(s.workers, t, Running, i);
    }
  }

  lemma HandOutKeepsSpace(c: Config, s: State, t: nat, s': State)
    requires c.Valid() && SpaceInv(c, s) && Next(c, s, HandOut(t), s')
    ensures SpaceInv(c, s')
  {
    forall d | d in s'.pending ensures Below(c, d) && d.Implementation? {
      if d !in s.pending {
        assert d == s.workers[t].candidate;
      }
    }
  }

  lemma HandOutKeepsInv(c: Config, s: State, t: nat, s': State)
    requires c.Valid() && Inv(c, s) && Next(c, s, HandOut(t), s')
    ensures Inv(c, s')
  {
    HandOutKeepsSpace(c, s, t, s');
    forall i | Counts(c, i) ensures Covered(s', i) {
      HandOutCovers(c, s, t, s', i);
    }
  }

  // ----- Evaluation -----

  lemma AppendMessage(c: Config, start: Ext, messages: seq<(Candidate, Ext)>, m: (Candidate, Ext), k: nat)
    requires k < |messages| && MessageOk(c, start, messages, k)
    ensures MessageOk(c, start, messages + [m], k)
  {
    assert (messages + [m])[..k] == messages[..k];
  }

  /** A result is sent only if it passed the check or does not improve on the best one. */
  lemma EvaluateKeepsMessages(c: Config, s: State, candidate: Candidate, s': State)
    requires c.Valid() && MessageInv(c, s.messages, s.monitorBest, s.best) && Next(c, s, Evaluate(candidate), s')
    requires Below(c, candidate)
    ensures MessageInv(c, s'.messages, s'.monitorBest, s'.best)
  {
    var start := BestEval(s.monitorBest);
    var eval := Evaluation(c, s, candidate);
    var n := |s.messages|;
    assert s'.messages[..n] == s.messages;
    forall k | 0 <= k < n + 1 ensures MessageOk(c, start, s'.messages, k) {
      if k < n {
        AppendMessage(c, start, s.messages, (candidate, eval), k);
      } else if eval.Fin? && candidate.valid {
        assert IsLeafOf(candidate, candidate);
        assert Reports(c, s'.messages[n]);
      }
    }
  }

  lemma EvaluateCovers(c: Config, s: State, candidate: Candidate, s': State, i: Candidate)
    requires c.Valid() && Next(c, s, Evaluate(candidate), s') && Below(c, candidate)
    requires i.Implementation? && i.runtime.Fin? && i.valid && Covered(s, i)
    ensures Covered(s', i)
  {
    if i in s.pending && i !in s'.pending {
      assert i == candidate;
      assert IsLeafOf(i, candidate) && candidate.bound <= i.runtime.v;
    }
  }

  lemma EvaluateKeepsInv(c: Config, s: State, candidate: Candidate, s': State)
    requires c.Valid() && Inv(c, s) && Next(c, s, Evaluate(candidate), s')
    ensures Inv(c, s')
  {
    assert Below(c, candidate);
    EvaluateKeepsMessages(c, s, candidate, s');
    assert SpaceInv(c, s') by {
      assert forall d :: d in s'.pending ==> d in s.pending;
    }
    forall i | Counts(c, i) ensures Covered(s', i) {
      EvaluateCovers(c, s, candidate, s', i);
    }
  }

  // ----- Monitor -----

  lemma {:induction false} LeastShift(start: Ext, messages: seq<(Candidate, Ext)>, k: nat)
    requires k < |messages|
    ensures LeastOf(start.Min(messages[0].1), messages[1..][..k]) == LeastOf(start, messages[..k + 1])
  {
    assert messages[..k + 1][..k] == messages[..k];
    if k == 0 {
      assert messages[..1][..0] == [];
    } else {
      LeastShift(start, messages, k - 1);
      assert messages[1..][..k][..k - 1] == messages[1..][..k - 1];
      assert messages[..k] == messages[..k - 1 + 1];
    }
  }

  /** The monitor's best result is the least one it has handled. */
  lemma HandleKeepsMessages(c: Config, s: State, s': State)
    requires c.Valid() && MessageInv(c, s.messages, s.monitorBest, s.best) && Next(c, s, Handle, s')
    ensures MessageInv(c, s'.messages, s'.monitorBest, s'.best)
    ensures BestEval(s'.monitorBest) == BestEval(s.monitorBest).Min(s.messages[0].1)
  {
    var start, start' := BestEval(s.monitorBest), BestEval(s'.monitorBest);
    var n := |s.messages|;
    assert MessageOk(c, start, s.messages, 0);
    assert LeastOf(start, s.messages[..0]) == start;
    assert start' == start.Min(s.messages[0].1);
    LeastShift(start, s.messages, n - 1);
    assert s.messages[..n - 1 + 1] == s.messages && s.messages[1..][..n - 1] == s'.messages;
    forall k | 0 <= k < n - 1 ensures MessageOk(c, start', s'.messages, k) {
      assert MessageOk(c, start, s.messages, k + 1);
      LeastShift(start, s.messages, k);
    }
  }

  lemma HandleKeepsCut(c: Config, s: State, s': State)
    requires c.Valid() && MessageInv(c, s.messages, s.monitorBest, s.best) && CutInv(c, s) && Next(c, s, Handle, s')
    ensures CutInv(c, s') && s'.cut.Le(s.cut)
  {
    HandleKeepsMessages(c, s, s');
    NewCutMonotone(c, BestEval(s'.monitorBest), BestEval(s.monitorBest));
  }

  /** A candidate dropped by the cut holds no implementation better than the cut. */
  lemma DropCovers(c: Config, s: State, s': State, i: Candidate)
    requires AllBelow(c, s.queue) && (Kept(s.queue, s'.cut, s'.queue) || s'.queue == s.queue)
    requires s'.cut.Le(s.cut) && s'.best == s.best && s'.pending == s.pending && s'.workers == s.workers
    requires i.Implementation? && i.runtime.Fin? && Covered(s, i)
    ensures Covered(s', i)
  {
    if Queued(s.queue, i) {
      var d :| d in s.queue && IsLeafOf(i, d);
      if d !in s'.queue {
        assert !s'.cut.Above(d.bound) && d.bound <= i.runtime.v;
      }
    }
  }

  lemma DropKeepsSpace(c: Config, s: State, s': State)
    requires SpaceInv(c, s) && (Kept(s.queue, s'.cut, s'.queue) || s'.queue == s.queue)
    requires s'.pending == s.pending && s'.workers == s.workers
    ensures SpaceInv(c, s')
  {
    forall d | d in s'.queue ensures Below(c, d) {
      assert d in s.queue;
    }
  }

  lemma HandleKeepsInv(c: Config, s: State, s': State)
    requires c.Valid() && Inv(c, s) && Next(c, s, Handle, s')
    ensures Inv(c, s')
  {
    HandleKeepsMessages(c, s, s');
    HandleKeepsCut(c, s, s');
    DropKeepsSpace(c, s, s');
    forall i | Counts(c, i) ensures Covered(s', i) {
      DropCovers(c, s, s', i);
    }
  }

  /** Stopping publishes the least possible cut, which drops everything. */
  lemma StopStoreKeepsInv(c: Config, s: State, s': State)
    requires c.Valid() && Inv(c, s) && Next(c, s, StopStore, s')
    ensures Inv(c, s')
  {
    DropKeepsSpace(c, s, s');
    forall i | Counts(c, i) ensures Covered(s', i) {
      DropCovers(c, s, s', i);
    }
  }

  lemma TimeoutKeepsInv(c: Config, s: State, s': State)
    requires c.Valid() && Inv(c, s) && s' == s.(stopped := true)
    ensures Inv(c, s')
  {
    forall i | Counts(c, i) ensures Covered(s', i) {
      assert Covered(s, i);
    }
  }

  // ----- Whole runs -----

  lemma NextKeepsInv(c: Config, s: State, e: Event, s': State)
    requires c.Valid() && Inv(c, s) && Next(c, s, e, s')
    ensures Inv(c, s')
  {
    match e {
      case Pop(t) =>
        assert s.(counter := s.counter) == s;
        AttemptKeepsInv(c, s, s.counter, t, s');
      case Wake(t) => AttemptKeepsInv(c, s, s.counter + 1, t, s');
      case Insert(t) => InsertKeepsInv(c, s, t, s');
      case HandOut(t) => HandOutKeepsInv(c, s, t, s');
      case Evaluate(candidate) => EvaluateKeepsInv(c, s, candidate, s');
      case Handle => HandleKeepsInv(c, s, s');
      case Timeout => TimeoutKeepsInv(c, s, s');
      case StopStore => StopStoreKeepsInv(c, s, s');
    }
  }

  lemma InitInv(c: Config, s: State)
    requires c.Valid() && Init(c, s)
    requires forall k :: 0 <= k < |c.initial| ==> Admissible(c.initial[k])
    ensures Inv(c, s)
  {
    forall d | d in s.queue ensures Below(c, d) {
      InsertAllContains(multiset{}, Inf, c.initial, d);
    }
    forall i | Counts(c, i) ensures Covered(s, i) {
      var k :| 0 <= k < |c.initial| && IsLeafOf(i, c.initial[k]);
      InsertAllContains(multiset{}, Inf, c.initial, c.initial[k]);
    }
  }

  lemma {:induction false} RunInv(c: Config, run: seq<State>, events: seq<Event>, i: nat)
    requires c.Valid() && Run(c, run, events) && i < |run|
    requires forall k :: 0 <= k < |c.initial| ==> Admissible(c.initial[k])
    ensures Inv(c, run[i])
  {
    if i == 0 {
      InitInv(c, run[0]);
    } else {
      RunInv(c, run, events, i - 1);
      NextKeepsInv(c, run[i - 1], events[i - 1], run[i - 1 + 1]);
    }
  }

  /** Nothing is left to do: every worker has returned and every result was handled. */
  ghost predicate Drained(s: State) {
    && s.queue == multiset{} && s.pending == multiset{} && s.messages == []
    && forall t :: 0 <= t < |s.workers| ==> s.workers[t].Finished?
  }

  /**
   When the search ends by itself, the monitor's best candidate is a correct implementation
   measured at the best runtime, and no correct implementation beats the cut it publishes.
   */
  lemma DrainedSearchIsOptimal(c: Config, run: seq<State>, events: seq<Event>, j: nat, i: Candidate)
    requires c.Valid() && Run(c, run, events) && j < |run|
    requires forall k :: 0 <= k < |c.initial| ==> Admissible(c.initial[k])
    requires Drained(run[j]) && !run[j].stopped && Counts(c, i)
    ensures run[j].monitorBest.Some?
    ensures
      var (candidate, eval) := run[j].monitorBest.value;
      && eval.Fin? && Counts(c, candidate) && candidate.runtime == eval
      && c.NewCut(eval).Le(i.runtime)
      && (c.stopBound == None && c.distanceToBest == None ==> eval.v <= i.runtime.v)
      && (c.stopBound == None && c.distanceToBest.Some? ==>
            (1.0 - c.distanceToBest.value / 100.0) * eval.v <= i.runtime.v)
      && (c.stopBound.Some? && eval.v >= c.stopBound.value && c.distanceToBest == None ==> eval.v <= i.runtime.v)
  {
    RunInv(c, run, events, j);
    var s := run[j];
    assert Covered(s, i);
    assert s.best == BestEval(s.monitorBest);
    NewCutMonotone(c, BestEval(s.monitorBest), BestEval(s.monitorBest));
  }

  /** Whatever happens, a result the monitor keeps passed the check. */
  lemma BestIsChecked(c: Config, run: seq<State>, events: seq<Event>, j: nat)
    requires c.Valid() && Run(c, run, events) && j < |run|
    requires forall k :: 0 <= k < |c.initial| ==> Admissible(c.initial[k])
    requires run[j].monitorBest.Some? && run[j].monitorBest.value.1.Fin?
    ensures run[j].monitorBest.value.0.Implementation? && run[j].monitorBest.value.0.valid
    ensures run[j].monitorBest.value.0.runtime == run[j].monitorBest.value.1
    ensures InSpace(c, run[j].monitorBest.value.0)
  {
    RunInv(c, run, events, j);
  }
}
