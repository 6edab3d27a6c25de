/**
 The shared search tree of the Monte-Carlo search, and one worker's walk through it.

 The static search space is a finite tree: a candidate with no action left is an
 implementation, and an action rejected by constraint propagation leads to no candidate.
 A tree node is named by the edge indices that lead to it from the root.
 */
module SearchTree {
  import opened Wrappers
  import opened Extended

  /** A candidate: its lower bound and the outcome of each of its actions. */
  datatype Space = Space(bound: real, children: seq<Option<Space>>)

  type Path = seq<nat>

  function Parent(p: Path): Path
    requires p != []
  {
    p[..|p| - 1]
  }

  function Last(p: Path): nat
    requires p != []
  {
    p[|p| - 1]
  }

  /** The outcome of the i-th action of a candidate. */
  function ApplyAction(s: Space, i: nat): Option<Space> {
    if i < |s.children| then s.children[i] else None
  }

  /** The candidate reached by the actions of `p`, if no action is rejected on the way. */
  function At(root: Space, p: Path): Option<Space>
    decreases |p|
  {
    if p == [] then Some(root)
    else
      match At(root, Parent(p))
      case None => None
      case Some(s) => ApplyAction(s, Last(p))
  }

  predicate IsImplementation(root: Space, p: Path) {
    At(root, p).Some? && At(root, p).value.children == []
  }

  /** A node; `lock` is the worker holding the write lock on `expanded`. */
  datatype Node = Node(
    bound: Option<real>,
    arity: nat,
    dead: bool,
    expanded: bool,
    lock: Option<nat>,
    candidate: Option<Space>)
  {
    predicate Live() {
      bound.Some? && !dead
    }

    predicate Implementation() {
      bound.Some? && arity == 0
    }
  }

  function NewNode(candidate: Option<Space>): Node {
    match candidate
    case None => Node(None, 0, true, false, None, None)
    case Some(s) => Node(Some(s.bound), |s.children|, false, false, None, None)
  }

  /** The assertions and unwraps of the descent that could abort a worker. */
  datatype Panic =
    | NotInTree
    | ImplementationInTree
    | MissingChild
    | MissingCandidate
    | RejectedChild

  /** A checkpoint of the descent: in the explicit tree or in the rollout. */
  datatype Frame =
    | InTree(node: Path)
    | Rollout(node: Path, candidate: Space)

  datatype Pc =
    | Outside                                                   // not inside `explore`
    | Loop                                                      // loads the cut of a new cursor
    | LoadEpoch
    | RootCut
    | RootCheck
    | ExpandCut
    | ExpandAcquire
    | Expanding(edge: nat, candidate: Space)                    // holds the lock of the node
    | Storing(edge: nat, candidate: Space)                      // holds the lock of the node
    | ExpandFailed
    | Walk(candidate: Space)
    | Handing
    | Checking                                                  // `check_stop`: reads the stop flag,
    | CheckingEpoch                                             // then the epoch of the cut,
    | CheckingNode                                              // then whether the node is live
    | Refreshing
    | CutHere
    | Scanning(edge: nat, live: seq<nat>, expanded: seq<nat>)
    | Sorting(edge: nat, live: seq<nat>, expanded: seq<nat>)
    | DeadEnd
    | Finished(aborted: bool)                                   // `explore` returned no candidate
    | Panicked(reason: Panic)

  /** The cursor of a worker, with the checkpoints it may return to. */
  datatype Worker = Worker(pc: Pc, cut: Ext, epoch: nat, node: Path, frames: seq<Frame>)

  /**
   `handed` lists the implementations handed out so far, and `taken` the nodes whose
   candidate was taken by an expansion since the last restart.
   */
  datatype State = State(
    nodes: map<Path, Node>,
    cut: Ext,
    epoch: nat,
    stop: bool,
    workers: seq<Worker>,
    handed: set<Path>,
    taken: set<Path>)

  datatype Config = Config(space: Space, initialCut: Ext, backtrack: bool)

  predicate Init(c: Config, s: State) {
    && s.nodes == map[[] := NewNode(Some(c.space)).(candidate := Some(c.space))]
    && s.cut == c.initialCut
    && !s.stop
    && s.handed == {}
    && s.taken == {}
    && forall t :: 0 <= t < |s.workers| ==> s.workers[t].pc == Outside
  }

  function Get(s: State, p: Path): Node {
    if p in s.nodes then s.nodes[p] else NewNode(None)
  }

  function Put(s: State, p: Path, n: Node): State {
    s.(nodes := s.nodes[p := n])
  }

  function With(s: State, t: nat, w: Worker): State
    requires t < |s.workers|
  {
    s.(workers := s.workers[t := w])
  }

  /** Marks a node as dead. The candidate is cleared by a later step, `Clear`. */
  function Kill(s: State, p: Path): State {
    Put(s, p, Get(s, p).(dead := true))
  }

  predicate DeadAt(s: State, p: Path) {
    p in s.nodes && s.nodes[p].dead
  }

  /** Applies a cut to a node; the flag tells whether the node was found or made dead. */
  function CutNode(s: State, p: Path, cut: Ext): (r: (State, bool))
    ensures r.0 == s.(nodes := r.0.nodes)
  {
    var n := Get(s, p);
    if n.Live() then
      if cut.Above(n.bound.value) then (s, false) else (Kill(s, p), true)
    else
      (s, true)
  }

  /** Finds or creates the i-th child of `p`; the flag tells whether it is dead. */
  function CutOrCreateChild(s: State, p: Path, i: nat, candidate: Space, cut: Ext): (r: (State, bool))
    ensures r.0 == s.(nodes := r.0.nodes)
  {
    if p + [i] in s.nodes then CutNode(s, p + [i], cut)
    else CutNode(Put(s, p + [i], NewNode(ApplyAction(candidate, i))), p + [i], cut)
  }

  /** Worker `t` only changes itself, nodes of the tree and the two histories. */
  ghost predicate OnlyWorker(s: State, s': State, t: nat) {
    && |s'.workers| == |s.workers|
    && (forall u :: 0 <= u < |s.workers| && u != t ==> s'.workers[u] == s.workers[u])
    && s'.cut == s.cut && s'.epoch == s.epoch && s'.stop == s.stop
    && s.taken <= s'.taken && s.handed <= s'.handed
  }

  /** Enters `select_intree` at the pointed-to node. */
  function EnterTree(s: State, t: nat, w: Worker): (r: State)
    requires t < |s.workers|
    ensures OnlyWorker(s, r, t)
  {
    var n := Get(s, w.node);
    With(s, t,
         if !n.expanded then w.(pc := Panicked(NotInTree))
         else if n.Implementation() then w.(pc := Panicked(ImplementationInTree))
         else w.(pc := Checking, frames := w.frames + [InTree(w.node)]))
  }

  /** Returns to the last checkpoint. */
  function Retry(w: Worker): Worker
    requires w.frames != []
  {
    w.(pc := Checking, node := w.frames[|w.frames| - 1].node)
  }

  /** Reports that the frame's node is dead to the enclosing frame. */
  function LeaveFrame(w: Worker): Worker
    requires w.frames != []
  {
    w.(pc := DeadEnd, frames := w.frames[..|w.frames| - 1])
  }

  /** Whether the next step of the worker must wait for a lock on `expanded`. */
  predicate Blocked(s: State, t: nat)
    requires t < |s.workers|
  {
    var w := s.workers[t];
    match w.pc
    case RootCheck => Get(s, w.node).lock.Some?
    case ExpandAcquire => Get(s, w.node).lock.Some?
    case ExpandFailed => w.frames == [] && Get(s, w.node).lock.Some?
    case Sorting(i, _, _) => Get(s, w.node + [i]).lock.Some?
    case _ => false
  }

  /** Takes the lock, then the candidate; a second worker finds the node expanded. */
  function Acquire(s: State, t: nat): (r: State)
    requires t < |s.workers|
    ensures OnlyWorker(s, r, t)
  {
    var w := s.workers[t];
    var n := Get(s, w.node);
    if n.expanded then With(s, t, w.(pc := ExpandFailed))
    else
      match n.candidate
      case Some(candidate) =>
        With(Put(s, w.node, n.(lock := Some(t), candidate := None)).(taken := s.taken + {w.node}),
             t, w.(pc := Expanding(0, candidate)))
      case None =>
        With(s, t, w.(pc := if n.Live() then Panicked(MissingCandidate) else ExpandFailed))
  }

  /** Visits the next edge of the node being expanded, or ends the expansion. */
  function ExpandEdge(s: State, t: nat, i: nat, candidate: Space): (r: State)
    requires t < |s.workers|
    ensures OnlyWorker(s, r, t)
  {
    var w := s.workers[t];
    var n := Get(s, w.node);
    if i < n.arity then
      var (s1, dead) := CutOrCreateChild(s, w.node, i, candidate, w.cut);
      With(s1, t, w.(pc := if dead then Expanding(i + 1, candidate) else Storing(i, candidate)))
    else
      With(Put(s, w.node, n.(expanded := true, lock := None)), t, w.(pc := Walk(candidate)))
  }

  function StoreCandidate(s: State, t: nat, i: nat, candidate: Space): (r: State)
    requires t < |s.workers|
    ensures OnlyWorker(s, r, t)
  {
    var w := s.workers[t];
    match ApplyAction(candidate, i)
    case None => With(s, t, w.(pc := Panicked(RejectedChild)))
    case Some(child) =>
      var p := w.node + [i];
      With(Put(s, p, Get(s, p).(candidate := Some(child))), t, w.(pc := Expanding(i + 1, candidate)))
  }

  /** Entry of the rollout: an implementation is handed out, another node opens a frame. */
  function EnterWalk(s: State, t: nat, candidate: Space): (r: State)
    requires t < |s.workers|
    ensures OnlyWorker(s, r, t)
  {
    var w := s.workers[t];
    if Get(s, w.node).Implementation() then
      var (s1, dead) := CutNode(s, w.node, w.cut);
      if dead then With(s1, t, w.(pc := DeadEnd))
      else With(s1, t, w.(pc := Handing)).(handed := s.handed + {w.node})
    else
      With(s, t, w.(pc := Checking, frames := w.frames + [Rollout(w.node, candidate)]))
  }

  /** The three reads of `check_stop`, one a step. */
  function Check(s: State, t: nat): (r: State)
    requires t < |s.workers| && s.workers[t].frames != []
    ensures OnlyWorker(s, r, t)
  {
    var w := s.workers[t];
    With(s, t,
         match w.pc
         case Checking => w.(pc := if s.stop then Finished(true) else CheckingEpoch)
         case CheckingEpoch =>
           if s.epoch != w.epoch then w.(pc := Refreshing, epoch := s.epoch) else w.(pc := CheckingNode)
         case _ => if Get(s, w.node).Live() then w.(pc := Scanning(0, [], [])) else LeaveFrame(w))
  }

  /** Visits the next child of the last frame, or selects one of the children found. */
  function Scan(s: State, t: nat, i: nat, live: seq<nat>, expanded: seq<nat>, pick: nat): (r: State)
    requires t < |s.workers| && s.workers[t].frames != []
    ensures OnlyWorker(s, r, t)
  {
    var w := s.workers[t];
    if i < Get(s, w.node).arity then
      match w.frames[|w.frames| - 1]
      case InTree(_) =>
        if w.node + [i] !in s.nodes then With(s, t, w.(pc := Panicked(MissingChild)))
        else
          var (s1, dead) := CutNode(s, w.node + [i], w.cut);
          With(s1, t, w.(pc := if dead then Scanning(i + 1, live, expanded) else Sorting(i, live, expanded)))
      case Rollout(_, candidate) =>
        var (s1, dead) := CutOrCreateChild(s, w.node, i, candidate, w.cut);
        With(s1, t, w.(pc := Scanning(i + 1, if dead then live else live + [i], expanded)))
    else
      Select(s, t, live, expanded, pick)
  }

  /** The policy picks any of the children it is offered, and fails when there is none. */
  function Select(s: State, t: nat, live: seq<nat>, expanded: seq<nat>, pick: nat): (r: State)
    requires t < |s.workers| && s.workers[t].frames != []
    ensures OnlyWorker(s, r, t)
  {
    var w := s.workers[t];
    if live != [] then
      var i := live[pick % |live|];
      match w.frames[|w.frames| - 1]
      case InTree(_) => With(s, t, w.(pc := ExpandCut, node := w.node + [i]))
      case Rollout(_, candidate) =>
        match ApplyAction(candidate, i)
        case None => With(s, t, w.(pc := Panicked(RejectedChild)))
        case Some(child) => With(s, t, w.(pc := Walk(child), node := w.node + [i]))
    else if expanded != [] then
      var p := w.node + [expanded[pick % |expanded|]];
      if Get(s, p).expanded && Get(s, p).Implementation() then With(s, t, Retry(w))
      else EnterTree(s, t, w.(node := p))
    else
      With(Kill(s, w.node), t, w.(pc := Checking))
  }

  function Sort(s: State, t: nat, i: nat, live: seq<nat>, expanded: seq<nat>): (r: State)
    requires t < |s.workers|
    ensures OnlyWorker(s, r, t)
  {
    var w := s.workers[t];
    With(s, t, w.(pc :=
           if Get(s, w.node + [i]).expanded then Scanning(i + 1, live, expanded + [i])
           else Scanning(i + 1, live + [i], expanded)))
  }

  /** One atomic step of a worker; `pick` resolves the choice of the policy. */
  function Work(c: Config, s: State, t: nat, pick: nat): (r: State)
    requires t < |s.workers|
    ensures OnlyWorker(s, r, t)
  {
    var w := s.workers[t];
    match w.pc
    case Outside => With(s, t, w.(pc := Loop))
    case Loop => With(s, t, w.(pc := LoadEpoch, cut := s.cut, node := [], frames := []))
    case LoadEpoch => With(s, t, w.(pc := RootCut, epoch := s.epoch))
    case RootCut =>
      var (s1, dead) := CutNode(s, w.node, w.cut);
      With(s1, t, w.(pc := if dead then Finished(false) else RootCheck))
    case RootCheck =>
      if Get(s, w.node).expanded then EnterTree(s, t, w) else With(s, t, w.(pc := ExpandCut))
    case ExpandCut =>
      var (s1, dead) := CutNode(s, w.node, w.cut);
      With(s1, t, w.(pc := if dead then ExpandFailed else ExpandAcquire))
    case ExpandAcquire => Acquire(s, t)
    case Expanding(i, candidate) => ExpandEdge(s, t, i, candidate)
    case Storing(i, candidate) => StoreCandidate(s, t, i, candidate)
    case ExpandFailed => if w.frames == [] then EnterTree(s, t, w) else With(s, t, Retry(w))
    case Walk(candidate) => EnterWalk(s, t, candidate)
    case Handing => With(Kill(s, w.node), t, w.(pc := Outside))
    case Checking => if w.frames == [] then s else Check(s, t)
    case CheckingEpoch => if w.frames == [] then s else Check(s, t)
    case CheckingNode => if w.frames == [] then s else Check(s, t)
    case Refreshing => With(s, t, w.(pc := CutHere, cut := s.cut))
    case CutHere =>
      if w.frames == [] then s else
      var (s1, dead) := CutNode(s, w.node, w.cut);
      With(s1, t, if dead then LeaveFrame(w) else w.(pc := Scanning(0, [], [])))
    case Scanning(i, live, expanded) =>
      if w.frames == [] then s else Scan(s, t, i, live, expanded, pick)
    case Sorting(i, live, expanded) => Sort(s, t, i, live, expanded)
    case DeadEnd =>
      With(s, t, if w.frames == [] || !c.backtrack then w.(pc := Loop) else Retry(w))
    case Finished(_) => s
    case Panicked(_) => s
  }

  /** `Reset` of the whole tree followed by the storage of the initial candidate. */
  function Restarted(c: Config, s: State): State {
    var reset := map p | p in s.nodes :: s.nodes[p].(expanded := false, candidate := None);
    Put(s.(nodes := reset, taken := {}), [],
        Get(s.(nodes := reset), []).(candidate := Some(c.space)))
  }

  datatype Event =
    | Worked(t: nat, pick: nat)
    | UpdateCut(cut: Ext)
    | Stop
    | Clear(node: Path)       // the end of `kill`: drops the candidate of a dead node
    | Restart                 // between the two barriers, with no worker inside `explore`

  ghost predicate Next(c: Config, s: State, e: Event, s': State) {
    match e
    case Worked(t, pick) => t < |s.workers| && !Blocked(s, t) && s' == Work(c, s, t, pick)
    case UpdateCut(cut) => s' == s.(cut := cut.Min(s.cut), epoch := s.epoch + 1)
    case Stop => s' == s.(stop := true)
    case Clear(p) => p in s.nodes && s.nodes[p].dead && s' == Put(s, p, s.nodes[p].(candidate := None))
    case Restart =>
      && (forall t :: 0 <= t < |s.workers| ==> s.workers[t].pc.Outside? || s.workers[t].pc.Finished?)
      && s' == Restarted(c, s)
  }

  /** A finite run: each event leads from one state to the next. */
  ghost predicate Run(c: Config, run: seq<State>, events: seq<Event>) {
    && |run| == |events| + 1
    && Init(c, run[0])
    && forall i :: 0 <= i < |events| ==> Next(c, run[i], events[i], run[i + 1])
  }
}
