/** The counter of active workers and the condition variable never lose a worker. */
module QueueProtocol {
  import opened Wrappers
  import opened Extended
  import opened CandidateLists
  import opened BoundOrder

  ghost function NumActive(workers: seq<Worker>): nat {
    if workers == [] then 0
    else NumActive(workers[..|workers| - 1]) + if IsActive(workers[|workers| - 1]) then 1 else 0
  }

  lemma {:induction false} NumActiveUpdate(workers: seq<Worker>, t: nat, w: Worker)
    requires t < |workers|
    ensures NumActive(workers[t := w]) ==
            NumActive(workers) - (if IsActive(workers[t]) then 1 else 0) + (if IsActive(w) then 1 else 0)
  {
    var n := |workers| - 1;
    if t == n {
      assert workers[t := w][..n] == workers[..n];
    } else {
      assert workers[t := w][..n] == workers[..n][t := w];
      NumActiveUpdate(workers[..n], t, w);
    }
  }

  lemma {:induction false} NumActiveNotify(workers: seq<Worker>)
    ensures NumActive(NotifyAll(workers)) == NumActive(workers)
  {
    if workers != [] {
      var n := |workers| - 1;
      assert NotifyAll(workers)[..n] == NotifyAll(workers[..n]);
      NumActiveNotify(workers[..n]);
    }
  }

  lemma {:induction false} NumActivePositive(workers: seq<Worker>, t: nat)
    requires t < |workers| && IsActive(workers[t])
    ensures NumActive(workers) >= 1
    ensures NumActive(workers) == 1 ==> forall u :: 0 <= u < |workers| && u != t ==> !IsActive(workers[u])
  {
    var n := |workers| - 1;
    if t < n {
      NumActivePositive(workers[..n], t);
    } else if NumActive(workers) == 1 {
      NoneActive(workers[..n]);
    }
  }

  lemma {:induction false} NoneActive(workers: seq<Worker>)
    ensures NumActive(workers) == 0 <==> forall u :: 0 <= u < |workers| ==> !IsActive(workers[u])
  {
    if workers != [] {
      var n := |workers| - 1;
      NoneActive(workers[..n]);
      if forall u :: 0 <= u < n ==> !IsActive(workers[..n][u]) {
        assert forall u :: 0 <= u < n ==> workers[u] == workers[..n][u];
      } else {
        var u :| 0 <= u < n && IsActive(workers[..n][u]);
        assert IsActive(workers[u]);
      }
    }
  }

  ghost predicate Inv(s: State) {
    && |s.workers| >= 1
    && s.counter == NumActive(s.workers)
    && (forall t :: 0 <= t < |s.workers| && s.workers[t] == Waiting(false) ==> s.queue == multiset{})
    && ((exists t :: 0 <= t < |s.workers| && s.workers[t].Finished?) ==>
          s.queue == multiset{} && s.counter == 0 &&
          forall t :: 0 <= t < |s.workers| ==> s.workers[t].Finished? || s.workers[t] == Waiting(true))
    && (s.counter == 0 ==> exists t :: 0 <= t < |s.workers| && s.workers[t] != Waiting(false))
  }

  /** What `pop` may assume once it holds the lock: every active worker is counted, and so is `t`. */
  ghost predicate Locked(s: State, t: nat) {
    && t < |s.workers| && !s.workers[t].Finished?
    && s.counter >= 1 && s.counter == NumActive(s.workers) + (if IsActive(s.workers[t]) then 0 else 1)
    && (forall u :: 0 <= u < |s.workers| && s.workers[u] == Waiting(false) ==> s.queue == multiset{})
    && ((exists u :: 0 <= u < |s.workers| && s.workers[u].Finished?) ==>
          s.queue == multiset{} && s.counter == 1 &&
          forall u :: 0 <= u < |s.workers| ==> s.workers[u].Finished? || s.workers[u] == Waiting(true))
  }

  lemma TakeKeepsInv(s: State, t: nat, s': State, c: Candidate)
    requires Locked(s, t) && c in s.queue && s' == s.(queue := s.queue - multiset{c}, workers := s.workers[t := Holding(c)])
    ensures Inv(s')
  {
    NumActiveUpdate(s.workers, t, Holding(c));
  }

  lemma FinishKeepsInv(s: State, t: nat, s': State)
    requires Locked(s, t) && s.queue == multiset{} && s.counter == 1
    requires s' == s.(counter := 0, workers := NotifyAll(s.workers[t := Finished]))
    ensures Inv(s')
  {
    var ws := s.workers[t := Finished];
    NumActiveUpdate(s.workers, t, Finished);
    NumActiveNotify(ws);
    NoneActive(ws);
    assert s'.workers[t].Finished?;
  }

  lemma SleepKeepsInv(s: State, t: nat, s': State)
    requires Locked(s, t) && s.queue == multiset{} && s.counter > 1
    requires s' == s.(counter := s.counter - 1, workers := s.workers[t := Waiting(false)])
    ensures Inv(s')
  {
    NumActiveUpdate(s.workers, t, Waiting(false));
  }

  lemma AttemptKeepsInv(s: State, t: nat, s': State)
    requires Locked(s, t) && Attempt(s, t, s')
    ensures Inv(s')
  {
    if s.queue != multiset{} {
      var c :| IsLeast(c, s.queue) && s' == s.(queue := s.queue - multiset{c}, workers := s.workers[t := Holding(c)]);
      TakeKeepsInv(s, t, s', c);
    } else if s.counter == 1 {
      FinishKeepsInv(s, t, s');
    } else {
      SleepKeepsInv(s, t, s');
    }
  }

  lemma KeptFewer(queue: multiset<Candidate>, cut: Ext, kept: multiset<Candidate>)
    requires Kept(queue, cut, kept) || kept == queue
    ensures queue == multiset{} ==> kept == multiset{}
  {
    assert forall c :: c in kept ==> c in queue;
  }

  /** A worker that holds a candidate runs on, the others being notified if it inserted something. */
  lemma RunningKeepsInv(s: State, t: nat, s': State, notify: bool)
    requires Inv(s) && t < |s.workers| && s.workers[t].Holding? && s'.counter == s.counter
    requires s'.workers == if notify then NotifyAll(s.workers[t := Running]) else s.workers[t := Running]
    requires notify || s'.queue == s.queue
    ensures Inv(s')
  {
    NumActivePositive(s.workers, t);
    NumActiveUpdate(s.workers, t, Running);
    NumActiveNotify(s.workers[t := Running]);
    assert IsActive(s.workers[t]) && s.counter > 0;
    assert s'.workers[t] == Running;
  }

  /** Fewer candidates in the queue change nothing for the workers. */
  lemma FewerKeepsInv(s: State, s': State)
    requires Inv(s) && s'.workers == s.workers && s'.counter == s.counter && (s.queue == multiset{} ==> s'.queue == multiset{})
    ensures Inv(s')
  {
  }

  lemma NextKeepsInv(c: Config, s: State, e: Event, s': State)
    requires c.Valid() && Inv(s) && Next(c, s, e, s')
    ensures Inv(s')
  {
    match e {
      case Pop(t) =>
        NumActivePositive(s.workers, t);
        AttemptKeepsInv(s, t, s');
      case Wake(t) => AttemptKeepsInv(s.(counter := s.counter + 1), t, s');
      case Insert(t) => RunningKeepsInv(s, t, s', true);
      case HandOut(t) => RunningKeepsInv(s, t, s', false);
      case Handle => HandleKeepsInv(c, s, s');
      case StopStore =>
        KeptFewer(s.queue, s'.cut, s'.queue);
        FewerKeepsInv(s, s');
      case Evaluate(_) => FewerKeepsInv(s, s');
      case Timeout => FewerKeepsInv(s, s');
    }
  }

  lemma HandleKeepsInv(c: Config, s: State, s': State)
    requires c.Valid() && Inv(s) && s.messages != [] && HandleMessage(c, s, s')
    ensures Inv(s')
  {
    if s'.queue != s.queue {
      KeptFewer(s.queue, s'.cut, s'.queue);
    }
    FewerKeepsInv(s, s');
  }

  lemma {:induction false} RunInv(c: Config, run: seq<State>, events: seq<Event>, i: nat)
    requires c.Valid() && Run(c, run, events) && i < |run|
    ensures Inv(run[i])
  {
    if i == 0 {
      AllActive(run[0].workers);
    } else {
      RunInv(c, run, events, i - 1);
      NextKeepsInv(c, run[i - 1], events[i - 1], run[i - 1 + 1]);
    }
  }

  lemma {:induction false} AllActive(workers: seq<Worker>)
    requires forall t :: 0 <= t < |workers| ==> workers[t].Running?
    ensures NumActive(workers) == |workers|
  {
    if workers != [] {
      AllActive(workers[..|workers| - 1]);
    }
  }

  /** The counter is the number of workers that neither wait nor have finished. */
  lemma CounterCountsActive(c: Config, run: seq<State>, events: seq<Event>, i: nat)
    requires c.Valid() && Run(c, run, events) && i < |run|
    ensures run[i].counter == NumActive(run[i].workers)
    ensures forall t :: 0 <= t < |run[i].workers| && run[i].workers[t] == Waiting(false) ==> run[i].queue == multiset{}
  {
    RunInv(c, run, events, i);
  }

  /** `pop` returns nothing only once the queue is empty and no worker can insert any more. */
  lemma FinishedMeansDrained(c: Config, run: seq<State>, events: seq<Event>, i: nat, t: nat)
    requires c.Valid() && Run(c, run, events) && i < |run|
    requires t < |run[i].workers| && run[i].workers[t].Finished?
    ensures run[i].queue == multiset{}
    ensures forall u :: 0 <= u < |run[i].workers| ==> !IsActive(run[i].workers[u])
  {
    RunInv(c, run, events, i);
  }

  /** The workers never all sleep: while one has not returned, some worker can take a step. */
  lemma NeverAllBlocked(c: Config, run: seq<State>, events: seq<Event>, i: nat, t: nat)
    requires c.Valid() && Run(c, run, events) && i < |run|
    requires t < |run[i].workers| && !run[i].workers[t].Finished?
    ensures exists u :: 0 <= u < |run[i].workers| && (IsActive(run[i].workers[u]) || run[i].workers[u] == Waiting(true))
  {
    RunInv(c, run, events, i);
    var s := run[i];
    NoneActive(s.workers);
    if s.counter == 0 {
      var u :| 0 <= u < |s.workers| && s.workers[u] != Waiting(false);
      assert s.workers[u].Finished? ==> s.workers[t] == Waiting(true);
    }
  }

  /** Every worker with work or a notification has an enabled step. */
  lemma ReadyWorkerCanStep(c: Config, s: State, t: nat)
    requires c.Valid() && t < |s.workers|
    requires IsActive(s.workers[t]) || s.workers[t] == Waiting(true)
    ensures exists e, s' :: Next(c, s, e, s') && s'.workers != s.workers
  {
    match s.workers[t] {
      case Holding(candidate) =>
        var e := if candidate.Choice? then Insert(t) else HandOut(t);
        var s' :=
          if candidate.Choice? then
            s.(queue := InsertAll(s.queue, s.cut, candidate.children), workers := NotifyAll(s.workers[t := Running]))
          else
            s.(pending := s.pending + multiset{candidate}, workers := s.workers[t := Running]);
        assert Next(c, s, e, s');
        assert s'.workers[t] == Running;
      case Running =>
        var s' := AttemptExists(s, t);
        assert Next(c, s, Pop(t), s');
      case Waiting(_) =>
        var s' := AttemptExists(s.(counter := s.counter + 1), t);
        assert Next(c, s, Wake(t), s');
    }
  }

  lemma AttemptExists(s: State, t: nat) returns (s': State)
    requires t < |s.workers| && (s.workers[t].Running? || s.workers[t] == Waiting(true))
    ensures Attempt(s, t, s') && s'.workers[t] != s.workers[t]
  {
    if s.queue != multiset{} {
      LeastExists(s.queue);
      var c :| IsLeast(c, s.queue);
      s' := s.(queue := s.queue - multiset{c}, workers := s.workers[t := Holding(c)]);
    } else if s.counter == 1 {
      s' := s.(counter := 0, workers := NotifyAll(s.workers[t := Finished]));
    } else {
      s' := s.(counter := s.counter - 1, workers := s.workers[t := Waiting(false)]);
    }
  }
}
