/** The bound-ordered queue of candidates. */
module CandidateLists {
  import opened Wrappers
  import opened Extended

  /**
   A candidate of the search: one with a choice left, whose accepted actions lead to
   `children`, or a fully specified implementation with its measured runtime (infinite when
   the measurement fails) and whether its results pass the check.
   */
  datatype Candidate =
    | Choice(bound: real, children: seq<Candidate>)
    | Implementation(bound: real, runtime: Ext, valid: bool)

  ghost predicate IsLeast(c: Candidate, queue: multiset<Candidate>) {
    c in queue && forall d :: d in queue ==> c.bound <= d.bound
  }

  ghost predicate IsGreatest(c: Candidate, queue: multiset<Candidate>) {
    c in queue && forall d :: d in queue ==> d.bound <= c.bound
  }

  /** `kept` is what remains of `queue` once candidates of bound at least `cut` are dropped. */
  ghost predicate Kept(queue: multiset<Candidate>, cut: Ext, kept: multiset<Candidate>) {
    forall c: Candidate :: kept[c] == if cut.Above(c.bound) then queue[c] else 0
  }

  /** The queue after inserting candidates in order. */
  function InsertAll(queue: multiset<Candidate>, cut: Ext, candidates: seq<Candidate>): multiset<Candidate> {
    if candidates == [] then queue
    else
      var rest := InsertAll(queue, cut, candidates[..|candidates| - 1]);
      var c := candidates[|candidates| - 1];
      if cut.Above(c.bound) then rest + multiset{c} else rest
  }

  lemma {:induction false} InsertAllContains(queue: multiset<Candidate>, cut: Ext, candidates: seq<Candidate>, c: Candidate)
    ensures c in InsertAll(queue, cut, candidates) <==> c in queue || (c in candidates && cut.Above(c.bound))
  {
    if candidates != [] {
      var init := candidates[..|candidates| - 1];
      InsertAllContains(queue, cut, init, c);
      assert candidates == init + [candidates[|candidates| - 1]];
    }
  }

  lemma {:induction false} LeastExists(queue: multiset<Candidate>)
    requires queue != multiset{}
    ensures exists c :: IsLeast(c, queue)
    decreases |queue|
  {
    var c :| c in queue;
    var rest := queue - multiset{c};
    assert queue == rest + multiset{c};
    if rest == multiset{} {
      assert forall d :: d in queue ==> d == c;
      assert IsLeast(c, queue);
    } else {
      LeastExists(rest);
      var d :| IsLeast(d, rest);
      assert forall e :: e in queue ==> e == c || e in rest;
      assert IsLeast(if c.bound <= d.bound then c else d, queue);
    }
  }

  lemma {:induction false} GreatestExists(queue: multiset<Candidate>)
    requires queue != multiset{}
    ensures exists c :: IsGreatest(c, queue)
    decreases |queue|
  {
    var c :| c in queue;
    var rest := queue - multiset{c};
    assert queue == rest + multiset{c};
    if rest == multiset{} {
      assert forall d :: d in queue ==> d == c;
      assert IsGreatest(c, queue);
    } else {
      GreatestExists(rest);
      var d :| IsGreatest(d, rest);
      assert forall e :: e in queue ==> e == c || e in rest;
      assert IsGreatest(if d.bound <= c.bound then c else d, queue);
    }
  }

  class CandidateList {
    var cut: Ext
    var queue: multiset<Candidate>
    var numCandidates: nat
    var numDropped: nat

    constructor ()
      ensures cut == Inf && queue == multiset{} && numCandidates == 0 && numDropped == 0
    {
      cut, queue, numCandidates, numDropped := Inf, multiset{}, 0, 0;
    }

    method Insert(c: Candidate)
      modifies this
      ensures cut == old(cut) && numCandidates == old(numCandidates) + 1
      ensures queue == if cut.Above(c.bound) then old(queue) + multiset{c} else old(queue)
      ensures numDropped == old(numDropped) + if cut.Above(c.bound) then 0 else 1
    {
      numCandidates := numCandidates + 1;
      if cut.Above(c.bound) {
        queue := queue + multiset{c};
      } else {
        numDropped := numDropped + 1;
      }
    }

    /** Inserts under one lock; every candidate is either queued or counted as dropped. */
    method InsertMany(candidates: seq<Candidate>)
      modifies this
      ensures cut == old(cut) && queue == InsertAll(old(queue), cut, candidates)
      ensures numCandidates == old(numCandidates) + |candidates|
      ensures |queue| + numDropped == |old(queue)| + old(numDropped) + |candidates|
    {
      for k := 0 to |candidates|
        invariant cut == old(cut) && queue == InsertAll(old(queue), cut, candidates[..k])
        invariant numCandidates == old(numCandidates) + k
        invariant |queue| + numDropped == |old(queue)| + old(numDropped) + k
      {
        Insert(candidates[k]);
        assert candidates[..k + 1][..k] == candidates[..k];
      }
      assert candidates[..|candidates|] == candidates;
    }

    /** Publishes a cut and drops exactly the candidates it excludes. */
    method UpdateCut(newCut: Ext)
      modifies this
      ensures cut == newCut && Kept(old(queue), newCut, queue)
      ensures |queue| + numDropped == |old(queue)| + old(numDropped)
      ensures numCandidates == old(numCandidates)
    {
      cut := newCut;
      while queue != multiset{}
        invariant cut == newCut && numCandidates == old(numCandidates)
        invariant forall c: Candidate :: queue[c] <= old(queue)[c]
        invariant forall c: Candidate :: newCut.Above(c.bound) ==> queue[c] == old(queue)[c]
        invariant |queue| + numDropped == |old(queue)| + old(numDropped)
        decreases |queue|
      {
        GreatestExists(queue);
        var c :| c in queue && forall d :: d in queue ==> d.bound <= c.bound;
        if newCut.Above(c.bound) {
          break;
        }
        queue := queue - multiset{c};
        numDropped := numDropped + 1;
      }
    }

    /** Removes a candidate of least bound. */
    method Pop() returns (candidate: Option<Candidate>)
      modifies this
      ensures cut == old(cut)
      ensures candidate.None? <==> old(queue) == multiset{}
      ensures candidate.None? ==> queue == old(queue)
      ensures candidate.Some? ==> IsLeast(candidate.value, old(queue)) && queue == old(queue) - multiset{candidate.value}
    {
      if queue == multiset{} {
        return None;
      }
      LeastExists(queue);
      var c :| c in queue && forall d :: d in queue ==> c.bound <= d.bound;
      queue := queue - multiset{c};
      candidate := Some(c);
    }
  }
}
