/** The bound-ordered search makes progress: it cannot run forever, and only stops once drained. */
module BoundOrderProgress {
  import opened Wrappers
  import opened Extended
  import opened CandidateLists
  import opened BoundOrder
  import MixedRadix
  import QueueProtocol
  import opened BoundOrderOptimality

  // ----- The work left in candidates -----

  /** The number of events a queued candidate can still cause, with those below it. */
  function Work(c: Candidate): nat
    decreases c, 0
  {
    match c
    case Implementation(_, _, _) => 4
    case Choice(_, children) => 2 + WorkAll(children)
  }

  function WorkAll(candidates: seq<Candidate>): nat
    decreases candidates, 0
  {
    if candidates == [] then 0 else WorkAll(candidates[..|candidates| - 1]) + Work(candidates[|candidates| - 1])
  }

  ghost function QueueWork(queue: multiset<Candidate>): nat
    decreases |queue|
  {
    if queue == multiset{} then 0
    else
      var c :| c in queue;
      QueueWork(queue - multiset{c}) + Work(c)
  }

  lemma {:induction false} QueueWorkRemove(queue: multiset<Candidate>, c: Candidate)
    requires c in queue
    ensures QueueWork(queue) == QueueWork(queue - multiset{c}) + Work(c)
    decreases |queue|
  {
    var d :| d in queue && QueueWork(queue) == QueueWork(queue - multiset{d}) + Work(d);
    if c != d {
      QueueWorkRemove(queue - multiset{d}, c);
      QueueWorkRemove(queue - multiset{c}, d);
      assert queue - multiset{d} - multiset{c} == queue - multiset{c} - multiset{d};
    }
  }

  lemma QueueWorkAdd(queue: multiset<Candidate>, c: Candidate)
    ensures QueueWork(queue + multiset{c}) == QueueWork(queue) + Work(c)
  {
    QueueWorkRemove(queue + multiset{c}, c);
    assert queue + multiset{c} - multiset{c} == queue;
  }

  lemma {:induction false} QueueWorkSubset(kept: multiset<Candidate>, queue: multiset<Candidate>)
    requires kept <= queue
    ensures QueueWork(kept) <= QueueWork(queue)
    ensures kept != queue ==> QueueWork(kept) < QueueWork(queue)
    decreases |queue|
  {
    if kept != queue {
      var c :| c in queue && kept[c] < queue[c];
      assert kept <= queue - multiset{c};
      QueueWorkRemove(queue, c);
      QueueWorkSubset(kept, queue - multiset{c});
    }
  }

  lemma {:induction false} InsertWork(queue: multiset<Candidate>, cut: Ext, candidates: seq<Candidate>)
    ensures QueueWork(InsertAll(queue, cut, candidates)) <= QueueWork(queue) + WorkAll(candidates)
  {
    if candidates != [] {
      var n := |candidates| - 1;
      InsertWork(queue, cut, candidates[..n]);
      QueueWorkAdd(InsertAll(queue, cut, candidates[..n]), candidates[n]);
    }
  }

  lemma KeptIsSubset(queue: multiset<Candidate>, cut: Ext, kept: multiset<Candidate>)
    requires Kept(queue, cut, kept)
    ensures kept <= queue
  {
  }

  // ----- The work left in workers -----

  function HeldWork(workers: seq<Worker>): nat {
    if workers == [] then 0
    else
      var w := workers[|workers| - 1];
      HeldWork(workers[..|workers| - 1]) + if w.Holding? then Work(w.candidate) - 1 else 0
  }

  function Unfinished(workers: seq<Worker>): nat {
    if workers == [] then 0
    else Unfinished(workers[..|workers| - 1]) + if workers[|workers| - 1].Finished? then 0 else 1
  }

  /** Workers that will look at the queue again without being notified. */
  function Awake(workers: seq<Worker>): nat {
    if workers == [] then 0
    else
      var w := workers[|workers| - 1];
      Awake(workers[..|workers| - 1]) + if w.Running? || w == Waiting(true) then 1 else 0
  }

  function Held(w: Worker): nat {
    if w.Holding? then Work(w.candidate) - 1 else 0
  }

  function One(b: bool): nat {
    if b then 1 else 0
  }

  lemma {:induction false} WorkersUpdate(workers: seq<Worker>, t: nat, w: Worker)
    requires t < |workers|
    ensures HeldWork(workers[t := w]) + Held(workers[t]) == HeldWork(workers) + Held(w)
    ensures Unfinished(workers[t := w]) + One(!workers[t].Finished?) == Unfinished(workers) + One(!w.Finished?)
    ensures Awake(workers[t := w]) + One(workers[t].Running? || workers[t] == Waiting(true)) ==
            Awake(workers) + One(w.Running? || w == Waiting(true))
  {
    var n := |workers| - 1;
    if t == n {
      assert workers[t := w][..n] == workers[..n];
    } else {
      assert workers[t := w][..n] == workers[..n][t := w];
      WorkersUpdate(workers[..n], t, w);
    }
  }

  lemma {:induction false} WorkersNotify(workers: seq<Worker>)
    ensures HeldWork(NotifyAll(workers)) == HeldWork(workers) && Unfinished(NotifyAll(workers)) == Unfinished(workers)
  {
    if workers != [] {
      var n := |workers| - 1;
      assert NotifyAll(workers)[..n] == NotifyAll(workers[..n]);
      WorkersNotify(workers[..n]);
    }
  }

  lemma {:induction false} WorkersBound(workers: seq<Worker>)
    ensures Unfinished(workers) <= |workers| && Awake(workers) <= |workers|
  {
    if workers != [] {
      WorkersBound(workers[..|workers| - 1]);
    }
  }

  // ----- The measure -----

  /** The events candidates, results and the end of the search can still cause. */
  ghost function Load(s: State): nat {
    QueueWork(s.queue) + HeldWork(s.workers) + 2 * |s.pending| + |s.messages| +
    One(!s.stopped) + One(!(s.stopped && s.cut == Fin(0.0)))
  }

  /** The load first, then the workers that have not returned, then those awake. */
  ghost predicate Less(s': State, s: State) {
    || Load(s') < Load(s)
    || (Load(s') == Load(s) && Unfinished(s'.workers) < Unfinished(s.workers))
    || (Load(s') == Load(s) && Unfinished(s'.workers) == Unfinished(s.workers) && Awake(s'.workers) < Awake(s.workers))
  }

  lemma AttemptProgress(s: State, counter: int, t: nat, s': State)
    requires t < |s.workers| && (s.workers[t].Running? || s.workers[t].Waiting?)
    requires Attempt(s.(counter := counter), t, s')
    requires s.workers[t] == Waiting(false) ==> s.queue == multiset{}
    ensures Less(s', s) || (s.workers[t] == Waiting(false) && s' == s.(counter := counter - 1))
  {
    if s.queue != multiset{} {
      var c :| IsLeast(c, s.queue) && s' == s.(counter := counter, queue := s.queue - multiset{c}, workers := s.workers[t := Holding(c)]);
      QueueWorkRemove(s.queue, c);
      WorkersUpdate(s.workers, t, Holding(c));
    } else if counter == 1 {
      WorkersUpdate(s.workers, t, Finished);
      WorkersNotify(s.workers[t := Finished]);
    } else {
      WorkersUpdate(s.workers, t, Waiting(false));
      if s.workers[t] == Waiting(false) {
        assert s.workers[t := Waiting(false)] == s.workers;
      }
    }
  }

  lemma InsertProgress(c: Config, s: State, t: nat, s': State)
    requires c.Valid() && Next(c, s, Insert(t), s')
    ensures Less(s', s)
  {
    var children := s.workers[t].candidate.children;
    InsertWork(s.queue, s.cut, children);
    WorkersUpdate(s.workers, t, Running);
    WorkersNotify(s.workers[t := Running]);
  }

  lemma HandOutProgress(c: Config, s: State, t: nat, s': State)
    requires c.Valid() && Next(c, s, HandOut(t), s')
    ensures Less(s', s)
  {
    WorkersUpdate(s.workers, t, Running);
  }

  lemma HandleProgress(c: Config, s: State, s': State)
    requires c.Valid() && Next(c, s, Handle, s')
    ensures Less(s', s)
  {
    if s'.queue != s.queue {
      KeptIsSubset(s.queue, s'.cut, s'.queue);
    }
    QueueWorkSubset(s'.queue, s.queue);
  }

  lemma StopStoreProgress(c: Config, s: State, s': State)
    requires c.Valid() && Next(c, s, StopStore, s')
    ensures Less(s', s) || s' == s
  {
    KeptIsSubset(s.queue, Fin(0.0), s'.queue);
    QueueWorkSubset(s'.queue, s.queue);
  }

  /** Every event that changes the state decreases the measure. */
  lemma StepsProgress(c: Config, s: State, e: Event, s': State)
    requires c.Valid() && QueueProtocol.Inv(s) && Next(c, s, e, s') && s' != s
    ensures Less(s', s)
  {
    match e {
      case Pop(t) =>
        assert s.(counter := s.counter) == s;
        AttemptProgress(s, s.counter, t, s');
      case Wake(t) => AttemptProgress(s, s.counter + 1, t, s');
      case Insert(t) => InsertProgress(c, s, t, s');
      case HandOut(t) => HandOutProgress(c, s, t, s');
      case Evaluate(candidate) =>
      case Handle => HandleProgress(c, s, s');
      case Timeout =>
      case StopStore => StopStoreProgress(c, s, s');
    }
  }

  /** The measure as one number. */
  ghost function Rank(s: State): nat {
    var n := |s.workers| + 1;
    (Load(s) * n + Unfinished(s.workers)) * n + Awake(s.workers)
  }

  lemma RankDecreases(s: State, s': State)
    requires Less(s', s) && |s'.workers| == |s.workers|
    ensures Rank(s') < Rank(s)
  {
    WorkersBound(s.workers);
    WorkersBound(s'.workers);
    var n := |s.workers| + 1;
    DigitsDecrease(Load(s'), Load(s), Unfinished(s'.workers), Unfinished(s.workers), Awake(s'.workers), Awake(s.workers), n);
  }

  lemma DigitsDecrease(a': nat, a: nat, b': nat, b: nat, c': nat, c: nat, n: nat)
    requires a' < a || (a' == a && b' < b) || (a' == a && b' == b && c' < c)
    requires b' < n && c' < n
    ensures (a' * n + b') * n + c' < (a * n + b) * n + c
  {
    var d, d' := a * n + b, a' * n + b';
    if a' < a {
      MixedRadix.Leading(a', a, b', b, n);
    }
    if d' < d {
      MixedRadix.Leading(d', d, c', c, n);
    }
  }

  /** A run without stuttering is no longer than the measure of its first state. */
  lemma {:induction false} RunsAreFinite(c: Config, run: seq<State>, events: seq<Event>, i: nat)
    requires c.Valid() && Run(c, run, events) && i < |run|
    requires forall k :: 0 <= k < |events| ==> run[k] != run[k + 1]
    ensures i + Rank(run[i]) <= Rank(run[0]) && |run[i].workers| == |run[0].workers|
  {
    if i > 0 {
      RunsAreFinite(c, run, events, i - 1);
      QueueProtocol.RunInv(c, run, events, i - 1);
      var s, s' := run[i - 1], run[i - 1 + 1];
      assert Next(c, s, events[i - 1], s') && s != s';
      StepsProgress(c, s, events[i - 1], s');
      SameWorkers(c, s, events[i - 1], s');
      RankDecreases(s, s');
    }
  }

  lemma SameWorkers(c: Config, s: State, e: Event, s': State)
    requires c.Valid() && Next(c, s, e, s')
    ensures |s'.workers| == |s.workers|
  {
    match e
    case Pop(t) => AttemptWorkers(s, t, s');
    case Wake(t) => AttemptWorkers(s.(counter := s.counter + 1), t, s');
    case Handle => HandlePending(c, s, s');
    case _ =>
  }

  lemma AttemptWorkers(s: State, t: nat, s': State)
    requires t < |s.workers| && Attempt(s, t, s')
    ensures |s'.workers| == |s.workers|
  {
  }

  // ----- Where runs end -----

  lemma {:induction false} PendingAreImplementations(c: Config, run: seq<State>, events: seq<Event>, i: nat)
    requires c.Valid() && Run(c, run, events) && i < |run|
    ensures forall d :: d in run[i].pending ==> d.Implementation?
  {
    if i > 0 {
      PendingAreImplementations(c, run, events, i - 1);
      PendingStep(c, run[i - 1], events[i - 1], run[i - 1 + 1]);
    }
  }

  lemma PendingStep(c: Config, s: State, e: Event, s': State)
    requires c.Valid() && Next(c, s, e, s') && forall d :: d in s.pending ==> d.Implementation?
    ensures forall d :: d in s'.pending ==> d.Implementation?
  {
    match e {
      case HandOut(t) =>
        forall d | d in s'.pending ensures d.Implementation? {
          assert d in s.pending || d == s.workers[t].candidate;
        }
      case Evaluate(_) => assert s'.pending <= s.pending;
      case Pop(t) => AttemptPending(s, t, s');
      case Wake(t) => AttemptPending(s.(counter := s.counter + 1), t, s');
      case Handle => HandlePending(c, s, s');
      case _ => assert s'.pending == s.pending;
    }
  }

  lemma AttemptPending(s: State, t: nat, s': State)
    requires t < |s.workers| && Attempt(s, t, s')
    ensures s'.pending == s.pending
  {
  }

  lemma HandlePending(c: Config, s: State, s': State)
    requires c.Valid() && s.messages != [] && HandleMessage(c, s, s')
    ensures s'.pending == s.pending && s'.workers == s.workers
  {
  }

  lemma HandleEnabled(c: Config, s: State) returns (s': State)
    requires c.Valid() && !s.stopped && s.messages != []
    ensures Next(c, s, Handle, s') && s' != s
  {
    var (candidate, eval) := s.messages[0];
    var change := s.monitorBest.None? || (eval.Fin? && s.monitorBest.value.1.Above(eval.v));
    var count := if eval.Fin? then s.numEvaluations + 1 else s.numEvaluations;
    var newCut := if change then c.NewCut(eval) else s.cut;
    var queue := if change then KeptOf(s.queue, newCut) else s.queue;
    s' := s.(messages := s.messages[1..],
             monitorBest := if change then Some((candidate, eval)) else s.monitorBest,
             cut := newCut,
             queue := queue,
             numEvaluations := count,
             stopped := eval.Fin? && c.maxEvaluations.Some? && count >= c.maxEvaluations.value);
    assert s'.messages != s.messages;
  }

  ghost function KeptOf(queue: multiset<Candidate>, cut: Ext): (kept: multiset<Candidate>)
    ensures Kept(queue, cut, kept)
    decreases |queue|
  {
    if queue == multiset{} then multiset{}
    else
      var c :| c in queue;
      var rest := KeptOf(queue - multiset{c}, cut);
      assert queue == (queue - multiset{c}) + multiset{c};
      if cut.Above(c.bound) then rest + multiset{c} else rest
  }

  /** While the search is neither drained nor stopped, some event changes the state. */
  lemma StuckOnlyWhenDrained(c: Config, run: seq<State>, events: seq<Event>, i: nat)
    requires c.Valid() && Run(c, run, events) && i < |run|
    requires !Drained(run[i]) && !run[i].stopped
    ensures exists e, s' :: Next(c, run[i], e, s') && s' != run[i]
  {
    var s := run[i];
    if s.messages != [] {
      var s' := HandleEnabled(c, s);
    } else if s.pending != multiset{} {
      var d :| d in s.pending;
      PendingAreImplementations(c, run, events, i);
      var eval := Evaluation(c, s, d);
      var s' := s.(pending := s.pending - multiset{d},
                   best := if eval.Fin? && s.best.Above(eval.v) then eval else s.best,
                   messages := s.messages + [(d, eval)]);
      assert Next(c, s, Evaluate(d), s') && s'.messages != s.messages;
    } else {
      WorkersStep(c, run, events, i);
    }
  }

  lemma WorkersStep(c: Config, run: seq<State>, events: seq<Event>, i: nat)
    requires c.Valid() && Run(c, run, events) && i < |run|
    requires !Drained(run[i]) && run[i].pending == multiset{} && run[i].messages == []
    ensures exists e, s' :: Next(c, run[i], e, s') && s' != run[i]
  {
    var s := run[i];
    QueueProtocol.RunInv(c, run, events, i);
    if t :| 0 <= t < |s.workers| && !s.workers[t].Finished? {
      QueueProtocol.NeverAllBlocked(c, run, events, i, t);
      var u :| 0 <= u < |s.workers| && (IsActive(s.workers[u]) || s.workers[u] == Waiting(true));
      QueueProtocol.ReadyWorkerCanStep(c, s, u);
      var e, s' :| Next(c, s, e, s') && s'.workers != s.workers;
    } else {
      assert false;
    }
  }
}
