/** The parser rebuilds every well-formed nest and reads all of its events. */
module NestRebuild {
  import opened Wrappers
  import opened Nests
  import opened NestParser

  predicate EntersThread(s: seq<Event>) {
    s != [] && s[0].Enter? && s[0].entry.ThreadDim?
  }

  predicate ExitsThread(s: seq<Event>) {
    s != [] && s[0].Exit? && s[0].thread
  }

  /** The events that end a body: nothing, the exit of a loop, or the exits of a group of threads. */
  ghost predicate Stops(n: nat, stop: seq<Event>, rest: seq<Event>) {
    || (stop == [] && rest == [])
    || (|stop| == 1 && stop[0].Exit? && !stop[0].thread)
    || (n == 0 && stop != [] && (forall k :: 0 <= k < |stop| ==> stop[k].Exit? && stop[k].thread) && !ExitsThread(rest))
  }

  // ----- How streams begin -----

  lemma SuffixHead<T>(s: seq<T>, k: nat, tail: seq<T>)
    requires k <= |s|
    ensures if k == |s| then s[k..] + tail == tail else (s[k..] + tail)[0] == s[k]
  {
  }

  lemma EntersEnd(pos: nat -> nat, dims: seq<Dim>, k: nat, tail: seq<Event>)
    requires k <= |dims|
    ensures k == |dims| ==> Enters(pos, dims[k..]) + tail == tail
  {
  }

  lemma StreamEnd(pos: nat -> nat, nest: seq<Nest>, k: nat, tail: seq<Event>)
    requires k <= |nest|
    ensures k == |nest| ==> EventsAll(pos, nest[k..]) + tail == tail
  {
  }

  lemma FirstEvent(pos: nat -> nat, n: nat, nest: Nest)
    requires WellFormed(pos, n, nest)
    ensures Events(pos, nest) != [] && !Events(pos, nest)[0].Exit?
    ensures n == 0 ==> !EntersThread(Events(pos, nest))
  {
  }

  lemma StreamHead(pos: nat -> nat, n: nat, nest: seq<Nest>, stop: seq<Event>, rest: seq<Event>)
    requires WellFormedAll(pos, n, nest) && Stops(n, stop, rest)
    ensures n > 0 ==> !ExitsThread(EventsAll(pos, nest) + (stop + rest))
    ensures n == 0 ==> !EntersThread(EventsAll(pos, nest) + stop)
    ensures n == 0 && stop != [] ==> !EntersThread(EventsAll(pos, nest) + (stop + rest))
  {
    if nest != [] {
      FirstEvent(pos, n, nest[0]);
    }
  }

  lemma StreamStep(pos: nat -> nat, nest: seq<Nest>, k: nat, tail: seq<Event>)
    requires k < |nest|
    ensures EventsAll(pos, nest[k..]) + tail == Events(pos, nest[k]) + (EventsAll(pos, nest[k + 1..]) + tail)
  {
    assert nest[k..][1..] == nest[k + 1..];
    var a, b := Events(pos, nest[k]), EventsAll(pos, nest[k + 1..]);
    assert (a + b) + tail == a + (b + tail);
  }

  lemma GraphStep(pos: nat -> nat, n: nat, nest: seq<Nest>, k: nat)
    requires WellFormedAll(pos, n, nest) && k < |nest|
    ensures WellFormedAll(pos, n, nest[..k]) && WellFormedAll(pos, n, nest[..k + 1])
    ensures GraphOfAll(pos, n, nest[..k + 1]) == GraphOfAll(pos, n, nest[..k]) + [GraphOf(pos, n, nest[k])]
  {
    assert nest[..k + 1][..k] == nest[..k];
  }

  // ----- Threads -----

  lemma PrefixOk(pos: nat -> nat, dims: seq<Dim>, k: nat, n: nat)
    requires k < |dims| && forall j :: 0 <= j < |dims| ==> pos(dims[j].id) < n
    ensures Active(pos, dims[..k + 1], n) == Active(pos, dims[..k], n)[pos(dims[k].id) := Some(dims[k].id)]
    ensures LevelsOf(dims[..k + 1]) == LevelsOf(dims[..k]) + dims[k].levels
  {
    assert dims[..k + 1][..k] == dims[..k];
  }

  lemma {:induction false} Inactive(pos: nat -> nat, dims: seq<Dim>, n: nat, p: nat)
    requires p < n && forall j :: 0 <= j < |dims| ==> pos(dims[j].id) < n && pos(dims[j].id) != p
    ensures Active(pos, dims, n)[p] == None
  {
    if dims != [] {
      Inactive(pos, dims[..|dims| - 1], n, p);
    }
  }

  lemma NextOfThreads(e: Event, s: seq<Event>, pos: nat -> nat, dims: seq<Dim>, k: nat, tail: seq<Event>)
    requires k < |dims| && [e] + s == Enters(pos, dims[k..]) + tail
    ensures e == EnterOf(pos, dims[k]) && s == Enters(pos, dims[k + 1..]) + tail
  {
    EntersStep(pos, dims, k);
    HeadOf(e, s, EnterOf(pos, dims[k]), Enters(pos, dims[k + 1..]), tail);
  }

  /** The dimensions of a group of threads, each at its own position. */
  ghost predicate Group(pos: nat -> nat, dims: seq<Dim>, n: nat) {
    && (forall j :: 0 <= j < |dims| ==> dims[j].kind.Thread? && pos(dims[j].id) < n)
    && (forall i, j :: 0 <= i < j < |dims| ==> pos(dims[i].id) != pos(dims[j].id))
  }

  /** The active dimensions once the first `k` were read. */
  ghost predicate Entered(pos: nat -> nat, dims: seq<Dim>, n: nat, k: nat, active: seq<Option<nat>>, levels: seq<nat>) {
    && Group(pos, dims, n) && k <= |dims|
    && active == Active(pos, dims[..k], n) && levels == LevelsOf(dims[..k])
  }

  lemma EnterOne(pos: nat -> nat, dims: seq<Dim>, n: nat, k: nat, active: seq<Option<nat>>, levels: seq<nat>)
    requires Entered(pos, dims, n, k, active, levels) && k < |dims|
    ensures |active| == n && pos(dims[k].id) < n && active[pos(dims[k].id)] == None
    ensures Entered(pos, dims, n, k + 1, active[pos(dims[k].id) := Some(dims[k].id)], levels + dims[k].levels)
  {
    PrefixOk(pos, dims, k, n);
    Inactive(pos, dims[..k], n, pos(dims[k].id));
  }

  lemma ThreadEntry(pos: nat -> nat, dims: seq<Dim>, n: nat, k: nat)
    requires Group(pos, dims, n) && k < |dims|
    ensures EnterOf(pos, dims[k]) == Enter(dims[k].id, ThreadDim(pos(dims[k].id), dims[k].levels))
  {
  }

  lemma NoneEntered(pos: nat -> nat, dims: seq<Dim>, n: nat)
    requires Group(pos, dims, n)
    ensures Entered(pos, dims, n, 0, seq(n, _ => None), [])
  {
    assert dims[..0] == [];
  }

  /** What is left to read of a group of threads. */
  lemma MoreThreads(s: seq<Event>, pos: nat -> nat, dims: seq<Dim>, k: nat, n: nat, tail: seq<Event>)
    requires Group(pos, dims, n) && k <= |dims| && s == Enters(pos, dims[k..]) + tail && !EntersThread(tail)
    ensures EntersThread(s) <==> k < |dims|
    ensures k == |dims| ==> s == tail
    ensures k < |dims| ==> s[0] == EnterOf(pos, dims[k]) && s[1..] == Enters(pos, dims[k + 1..]) + tail
  {
    EntersEnd(pos, dims, k, tail);
    if k < |dims| {
      EntersStep(pos, dims, k);
      assert s[1..] == Enters(pos, dims[k + 1..]) + tail;
    }
  }

  /** Reads the dimensions of a group of threads; no position is taken twice. */
  method EnterThreads(
      first: Event, events: EventStream, n: nat, ghost pos: nat -> nat, ghost dims: seq<Dim>, ghost tail: seq<Event>)
    returns (active: seq<Option<nat>>, levels: seq<nat>)
    requires dims != [] && Group(pos, dims, n)
    requires [first] + events.remaining == Enters(pos, dims) + tail && !EntersThread(tail)
    modifies events
    ensures active == Active(pos, dims, n) && levels == LevelsOf(dims)
    ensures events.remaining == tail
  {
    assert dims[0..] == dims;
    NextOfThreads(first, events.remaining, pos, dims, 0, tail);
    ThreadEntry(pos, dims, n, 0);
    NoneEntered(pos, dims, n);
    active, levels := seq(n, _ => None), [];
    EnterOne(pos, dims, n, 0, active, levels);
    active, levels := active[first.entry.pos := Some(first.id)], [] + first.entry.levels;
    ghost var k := 1;
    MoreThreads(events.remaining, pos, dims, k, n, tail);
    while events.NextEntersThread()
      invariant 1 <= k <= |dims| && Entered(pos, dims, n, k, active, levels)
      invariant events.remaining == Enters(pos, dims[k..]) + tail
      invariant EntersThread(events.remaining) <==> k < |dims|
      invariant k == |dims| ==> events.remaining == tail
      decreases |dims| - k
    {
      MoreThreads(events.remaining, pos, dims, k, n, tail);
      ThreadEntry(pos, dims, n, k);
      EnterOne(pos, dims, n, k, active, levels);
      var e := events.Next();
      assert active[e.value.entry.pos] == None;
      active := active[e.value.entry.pos := Some(e.value.id)];
      levels := levels + e.value.entry.levels;
      k := k + 1;
      MoreThreads(events.remaining, pos, dims, k, n, tail);
    }
    assert dims[..k] == dims;
  }

  // ----- Bodies -----

  method NestFromEvents(
      first: Event, events: EventStream, n: nat, ghost pos: nat -> nat, ghost nest: Nest, ghost rest: seq<Event>)
    returns (graph: Graph)
    requires WellFormed(pos, n, nest) && (n > 0 ==> !ExitsThread(rest))
    requires [first] + events.remaining == Events(pos, nest) + rest
    modifies events
    ensures graph == GraphOf(pos, n, nest) && events.remaining == rest
    decreases nest, 0
  {
    FirstEvent(pos, n, nest);
    assert ([first] + events.remaining)[0] == first;
    match first {
      case Exec(inst) =>
        HeadOf(first, events.remaining, first, [], rest);
        graph := Instruction([], [], inst);
      case Enter(id, SeqDim(dim)) =>
        if dim.kind.IsVector() {
          ghost var dims, tail := nest.dims, [Exec(nest.id)] + (Exits(nest.dims) + rest);
          VectorStream(first, events.remaining, pos, dims, nest.id, rest);
          graph := VectorInstFromEvents(dim, events, pos, dims, nest.id, rest);
        } else {
          LoopStream(first, events.remaining, pos, n, nest.dim, nest.body, rest);
          var body := BodyFromEvents(events, n, pos, nest.body, [ExitOf(nest.dim)], rest);
          graph := Graph.Loop(dim, body);
        }
      case Enter(id, ThreadDim(_, _)) =>
        ghost var dims, inner := nest.dims, nest.body;
        ghost var tail := EventsAll(pos, inner) + (Exits(dims) + rest);
        ThreadStream(first, events.remaining, pos, n, dims, inner, rest);
        var active, levels := EnterThreads(first, events, n, pos, dims, tail);
        var body := BodyFromEvents(events, 0, pos, inner, Exits(dims), rest);
        graph := Graph.Threads(active, levels, body);
      case Exit(_, _) => assert false;
    }
  }

  lemma Regroup<T>(a: seq<T>, b: seq<T>, c: seq<T>, d: seq<T>)
    ensures ((a + b) + c) + d == a + (b + (c + d))
  {
  }

  lemma {:induction false} VectorStream(e: Event, s: seq<Event>, pos: nat -> nat, dims: seq<Dim>, id: nat, rest: seq<Event>)
    requires dims != [] && [e] + s == Brackets(pos, dims, [Exec(id)]) + rest
    ensures e == EnterOf(pos, dims[0]) && s == Enters(pos, dims[1..]) + [Exec(id)] + (Exits(dims) + rest)
  {
    BracketsAre(pos, dims, [Exec(id)]);
    var xs, tail := Enters(pos, dims[1..]), [Exec(id)] + (Exits(dims) + rest);
    Regroup(Enters(pos, dims), [Exec(id)], Exits(dims), rest);
    HeadOf(e, s, EnterOf(pos, dims[0]), xs, tail);
    assert (xs + [Exec(id)]) + (Exits(dims) + rest) == xs + tail;
  }

  lemma LoopStream(e: Event, s: seq<Event>, pos: nat -> nat, n: nat, dim: Dim, body: seq<Nest>, rest: seq<Event>)
    requires [e] + s == Brackets(pos, [dim], EventsAll(pos, body)) + rest && !dim.kind.Thread?
    ensures e == EnterOf(pos, dim) && s == EventsAll(pos, body) + ([ExitOf(dim)] + rest)
    ensures Stops(n, [ExitOf(dim)], rest)
  {
    assert [dim][1..] == [];
    var inner := EventsAll(pos, body);
    assert Brackets(pos, [dim], inner) + rest == ([EnterOf(pos, dim)] + inner) + ([ExitOf(dim)] + rest);
    HeadOf(e, s, EnterOf(pos, dim), inner, [ExitOf(dim)] + rest);
  }

  lemma ThreadStream(e: Event, s: seq<Event>, pos: nat -> nat, n: nat, dims: seq<Dim>, body: seq<Nest>, rest: seq<Event>)
    requires WellFormed(pos, n, Nest.Threads(dims, body)) && !ExitsThread(rest)
    requires [e] + s == Brackets(pos, dims, EventsAll(pos, body)) + rest
    ensures
      var tail := EventsAll(pos, body) + (Exits(dims) + rest);
      [e] + s == Enters(pos, dims) + tail && !EntersThread(tail) && Stops(0, Exits(dims), rest)
  {
    BracketsAre(pos, dims, EventsAll(pos, body));
    ExitsAre(dims);
    StreamHead(pos, 0, body, Exits(dims), rest);
  }

  /** What is left to read once `k` nests were rebuilt, the next event being read already. */
  ghost predicate Reading(
      e: Option<Event>, s: seq<Event>, pos: nat -> nat, n: nat, nest: seq<Nest>, k: nat, stop: seq<Event>, rest: seq<Event>)
  {
    && WellFormedAll(pos, n, nest) && Stops(n, stop, rest) && k <= |nest|
    && (if e.None? then [] else [e.value]) + s == EventsAll(pos, nest[k..]) + (stop + rest)
    && (e.None? ==> s == [])
  }

  /** Rebuilds the nests of a body and reads the events that end it. */
  method BodyFromEvents(
      events: EventStream, n: nat, ghost pos: nat -> nat, ghost nest: seq<Nest>, ghost stop: seq<Event>, ghost rest: seq<Event>)
    returns (body: seq<Graph>)
    requires WellFormedAll(pos, n, nest) && Stops(n, stop, rest)
    requires events.remaining == EventsAll(pos, nest) + (stop + rest)
    modifies events
    ensures body == GraphOfAll(pos, n, nest) && events.remaining == rest
    decreases nest, 1
  {
    body := [];
    ghost var k := 0;
    assert nest[..0] == [] && nest[0..] == nest;
    var e := events.Next();
    while e.Some? && !e.value.Exit?
      invariant Reading(e, events.remaining, pos, n, nest, k, stop, rest)
      invariant k <= |nest| && WellFormedAll(pos, n, nest[..k]) && body == GraphOfAll(pos, n, nest[..k])
      decreases |nest| - k
    {
      BodyGoesOn(e.value, events.remaining, pos, n, nest, k, stop, rest);
      GraphStep(pos, n, nest, k);
      ghost var tail := EventsAll(pos, nest[k + 1..]) + (stop + rest);
      var graph := NestFromEvents(e.value, events, n, pos, nest[k], tail);
      body, k, e := body + [graph], k + 1, None;
      if events.remaining != [] {
        e := events.Next();
        HeadAndTail(tail);
      }
    }
    BodyEnds(e, events.remaining, pos, n, nest, k, stop, rest);
    EndBody(e, events, n, stop, rest);
  }

  lemma HeadAndTail<T>(s: seq<T>)
    requires s != []
    ensures [s[0]] + s[1..] == s
  {
  }

  /** Ends a body, of which the first closing event was read. */
  method EndBody(e: Option<Event>, events: EventStream, ghost n: nat, ghost stop: seq<Event>, ghost rest: seq<Event>)
    requires Stops(n, stop, rest)
    requires if stop == [] then e.None? && events.remaining == rest
             else e == Some(stop[0]) && stop[0].Exit? && events.remaining == stop[1..] + rest
    modifies events
    ensures events.remaining == rest
  {
    if e.Some? && e.value.thread {
      LeaveThreads(events, stop[1..], rest);
    } else {
      assert stop != [] ==> stop[1..] + rest == rest;
    }
  }

  /** Reads the other exits of a group of threads. */
  method LeaveThreads(events: EventStream, ghost exits: seq<Event>, ghost rest: seq<Event>)
    requires events.remaining == exits + rest && !ExitsThread(rest)
    requires forall k :: 0 <= k < |exits| ==> exits[k].Exit? && exits[k].thread
    modifies events
    ensures events.remaining == rest
  {
    ghost var j := 0;
    while events.NextExitsThread()
      invariant 0 <= j <= |exits| && events.remaining == exits[j..] + rest
      decreases |exits| - j
    {
      SuffixHead(exits, j, rest);
      var exit := events.Next();
      j := j + 1;
    }
    SuffixHead(exits, j, rest);
  }

  lemma BodyGoesOn(e: Event, s: seq<Event>, pos: nat -> nat, n: nat, nest: seq<Nest>, k: nat, stop: seq<Event>, rest: seq<Event>)
    requires Reading(Some(e), s, pos, n, nest, k, stop, rest) && !e.Exit?
    ensures k < |nest|
    ensures
      var tail := EventsAll(pos, nest[k + 1..]) + (stop + rest);
      [e] + s == Events(pos, nest[k]) + tail && (n > 0 ==> !ExitsThread(tail))
  {
    assert ([e] + s)[0] == e;
    StreamEnd(pos, nest, k, stop + rest);
    StreamStep(pos, nest, k, stop + rest);
    StreamHead(pos, n, nest[k + 1..], stop, rest);
  }

  lemma BodyEnds(e: Option<Event>, s: seq<Event>, pos: nat -> nat, n: nat, nest: seq<Nest>, k: nat, stop: seq<Event>, rest: seq<Event>)
    requires Reading(e, s, pos, n, nest, k, stop, rest) && (e.Some? ==> e.value.Exit?)
    ensures k == |nest| && nest[..k] == nest
    ensures if stop == [] then e.None? && s == rest else e == Some(stop[0]) && stop[0].Exit? && s == stop[1..] + rest
  {
    assert e.Some? ==> ([e.value] + s)[0] == e.value;
    if k < |nest| {
      StreamStep(pos, nest, k, stop + rest);
      FirstEvent(pos, n, nest[k]);
      assert false;
    }
    if e.Some? {
      assert stop != [];
      assert ([e.value] + s)[0] == e.value && ([e.value] + s)[1..] == s;
      assert (stop + rest)[1..] == stop[1..] + rest;
    }
  }
}
