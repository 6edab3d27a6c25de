/**
 The bound-ordered search: workers share a queue whose lock also counts the active workers,
 kernels are evaluated later in any order, and a monitor handles the results in the order
 they were sent and publishes cuts.
 */
module BoundOrder {
  import opened Wrappers
  import opened Extended
  import opened CandidateLists

  datatype Worker =
    | Running                      // between two calls to `pop`
    | Holding(candidate: Candidate)
    | Waiting(notified: bool)      // asleep on the condition variable
    | Finished

  datatype Config = Config(
    initial: seq<Candidate>,
    numWorkers: nat,
    checkAll: bool,
    stopBound: Option<real>,
    distanceToBest: Option<real>,
    maxEvaluations: Option<nat>)
  {
    /** What the search assumes of its configuration. */
    predicate Valid() {
      && numWorkers >= 1
      && (distanceToBest.Some? ==> 0.0 <= distanceToBest.value < 100.0)
    }

    /** The cut published when `eval` becomes the best evaluation. */
    function NewCut(eval: Ext): Ext
      requires Valid()
    {
      match eval
      case Inf => Inf
      case Fin(v) =>
        if stopBound.Some? && v < stopBound.value then Fin(0.0)
        else if distanceToBest.Some? then Fin((1.0 - distanceToBest.value / 100.0) * v)
        else eval
    }
  }

  datatype State = State(
    queue: multiset<Candidate>,
    cut: Ext,
    counter: int,
    workers: seq<Worker>,
    pending: multiset<Candidate>,            // kernels handed to the evaluator
    best: Ext,                               // best checked evaluation, shared by the callbacks
    messages: seq<(Candidate, Ext)>,         // results on their way to the monitor
    monitorBest: Option<(Candidate, Ext)>,
    numEvaluations: nat,
    stopped: bool)

  predicate IsActive(w: Worker) {
    w.Running? || w.Holding?
  }

  function NotifyAll(workers: seq<Worker>): (r: seq<Worker>)
    ensures |r| == |workers|
  {
    seq(|workers|, t requires 0 <= t < |workers| => if workers[t].Waiting? then Waiting(true) else workers[t])
  }

  predicate Init(c: Config, s: State) {
    && s.queue == InsertAll(multiset{}, Inf, c.initial)
    && s.cut == Inf
    && s.counter == c.numWorkers
    && s.workers == seq(c.numWorkers, _ => Running)
    && s.pending == multiset{}
    && s.best == Inf
    && s.messages == []
    && s.monitorBest == None
    && s.numEvaluations == 0
    && !s.stopped
  }

  /** The body of `pop` once the lock is held, until it returns or waits. */
  ghost predicate Attempt(s: State, t: nat, s': State)
    requires t < |s.workers|
  {
    if s.queue != multiset{} then
      exists c :: IsLeast(c, s.queue) &&
        s' == s.(queue := s.queue - multiset{c}, workers := s.workers[t := Holding(c)])
    else if s.counter == 1 then
      s' == s.(counter := 0, workers := NotifyAll(s.workers[t := Finished]))
    else
      s' == s.(counter := s.counter - 1, workers := s.workers[t := Waiting(false)])
  }

  /** `Stabilizer::evaluate` and the check of the results, under the lock on `best`. */
  function Evaluation(c: Config, s: State, candidate: Candidate): Ext
    requires candidate.Implementation?
  {
    if !s.best.Above(candidate.bound) then Inf
    else
      var eval := candidate.runtime;
      if eval.Fin? && (c.checkAll || s.best.Above(eval.v)) && !candidate.valid then Inf else eval
  }

  datatype Event =
    | Pop(t: nat)
    | Wake(t: nat)                    // notified or spurious
    | Insert(t: nat)
    | HandOut(t: nat)
    | Evaluate(candidate: Candidate)
    | Handle
    | Timeout
    | StopStore

  ghost predicate Next(c: Config, s: State, e: Event, s': State)
    requires c.Valid()
  {
    match e
    case Pop(t) => t < |s.workers| && s.workers[t].Running? && Attempt(s, t, s')
    case Wake(t) =>
      t < |s.workers| && s.workers[t].Waiting? && Attempt(s.(counter := s.counter + 1), t, s')
    case Insert(t) =>
      && t < |s.workers| && s.workers[t].Holding? && s.workers[t].candidate.Choice?
      && s' == s.(queue := InsertAll(s.queue, s.cut, s.workers[t].candidate.children),
                  workers := NotifyAll(s.workers[t := Running]))
    case HandOut(t) =>
      && t < |s.workers| && s.workers[t].Holding? && s.workers[t].candidate.Implementation?
      && s' == s.(pending := s.pending + multiset{s.workers[t].candidate}, workers := s.workers[t := Running])
    case Evaluate(candidate) =>
      && candidate in s.pending && candidate.Implementation?
      && var eval := Evaluation(c, s, candidate);
         s' == s.(pending := s.pending - multiset{candidate},
                  best := if eval.Fin? && s.best.Above(eval.v) then eval else s.best,
                  messages := s.messages + [(candidate, eval)])
    case Handle => !s.stopped && s.messages != [] && HandleMessage(c, s, s')
    case Timeout => s' == s.(stopped := true)
    case StopStore => s.stopped && Kept(s.queue, Fin(0.0), s'.queue) && s' == s.(queue := s'.queue, cut := Fin(0.0))
  }

  /** `handle_message`: a better result becomes the best one and publishes its cut. */
  ghost predicate HandleMessage(c: Config, s: State, s': State)
    requires c.Valid() && s.messages != []
  {
    var (candidate, eval) := s.messages[0];
    var change := s.monitorBest.None? || (eval.Fin? && s.monitorBest.value.1.Above(eval.v));
    var count := if eval.Fin? then s.numEvaluations + 1 else s.numEvaluations;
    var newCut := if change then c.NewCut(eval) else s.cut;
    && (if change then Kept(s.queue, newCut, s'.queue) else s'.queue == s.queue)
    && s' == s.(messages := s.messages[1..],
                monitorBest := if change then Some((candidate, eval)) else s.monitorBest,
                cut := newCut,
                queue := s'.queue,
                numEvaluations := count,
                stopped := eval.Fin? && c.maxEvaluations.Some? && count >= c.maxEvaluations.value)
  }

  ghost predicate Run(c: Config, run: seq<State>, events: seq<Event>)
    requires c.Valid()
  {
    && |run| == |events| + 1
    && Init(c, run[0])
    && forall i :: 0 <= i < |events| ==> Next(c, run[i], events[i], run[i + 1])
  }
}
