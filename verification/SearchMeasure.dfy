/** How much is left to do for a worker that searches alone. */
module SearchMeasure {
  import opened Wrappers
  import opened Extended
  import opened SearchTree
  import opened SearchInvariant
  import opened SearchSteps

  // ----- The size of a search space -----

  /** The candidates of a space, with a rejected action counting as one. */
  function Size(space: Space): (r: nat)
    ensures r > 0
    decreases space, 1, 0
  {
    1 + SizeOfFirst(space, |space.children|)
  }

  function SizeOfFirst(space: Space, n: nat): (r: nat)
    requires n <= |space.children|
    ensures n <= r
    decreases space, 0, n
  {
    if n == 0 then 0
    else
      SizeOfFirst(space, n - 1) +
      match space.children[n - 1]
      case None => 1
      case Some(child) => Size(child)
  }

  lemma {:induction false} ChildIsSmaller(space: Space, n: nat, i: nat)
    requires i < n <= |space.children| && space.children[i].Some?
    ensures Size(space.children[i].value) <= SizeOfFirst(space, n)
  {
    if i < n - 1 {
      ChildIsSmaller(space, n - 1, i);
    }
  }

  /** What is left below a place of the tree. */
  function SizeAt(root: Space, p: Path): nat {
    match At(root, p)
    case None => 0
    case Some(space) => Size(space)
  }

  lemma SizeAtChild(root: Space, p: Path, i: nat)
    requires At(root, p + [i]).Some?
    ensures SizeAt(root, p + [i]) < SizeAt(root, p)
  {
    AtChild(root, p, i);
    var space := At(root, p).value;
    ChildIsSmaller(space, |space.children|, i);
  }

  /** A path is no longer than the space is large. */
  lemma {:induction false} DepthBound(root: Space, p: Path)
    requires At(root, p).Some?
    ensures |p| + SizeAt(root, p) <= Size(root)
    decreases |p|
  {
    if p != [] {
      assert p == Parent(p) + [Last(p)];
      DepthBound(root, Parent(p));
      SizeAtChild(root, Parent(p), Last(p));
    }
  }

  /** The candidates at `p` or below. */
  function Places(space: Space, p: Path): (r: set<Path>)
    ensures |r| <= Size(space)
    decreases space, 1, 0
  {
    {p} + PlacesOfFirst(space, p, |space.children|)
  }

  function PlacesOfFirst(space: Space, p: Path, n: nat): (r: set<Path>)
    requires n <= |space.children|
    ensures |r| <= SizeOfFirst(space, n)
    decreases space, 0, n
  {
    if n == 0 then {}
    else
      PlacesOfFirst(space, p, n - 1) +
      match space.children[n - 1]
      case None => {}
      case Some(child) => Places(child, p + [n - 1])
  }

  lemma {:induction false} PlacesOfChild(space: Space, p: Path, n: nat, i: nat)
    requires i < n <= |space.children| && space.children[i].Some?
    ensures Places(space.children[i].value, p + [i]) <= PlacesOfFirst(space, p, n)
  {
    if i < n - 1 {
      PlacesOfChild(space, p, n - 1, i);
    }
  }

  lemma {:induction false} PlacesBelow(root: Space, p: Path)
    requires At(root, p).Some?
    ensures Places(At(root, p).value, p) <= Places(root, [])
    decreases |p|
  {
    if p != [] {
      var q, i := Parent(p), Last(p);
      assert p == q + [i];
      PlacesBelow(root, q);
      PlacesOfChild(At(root, q).value, q, |At(root, q).value.children|, i);
    }
  }

  lemma IsPlace(root: Space, p: Path)
    requires At(root, p).Some?
    ensures p in Places(root, [])
  {
    PlacesBelow(root, p);
    assert p in Places(At(root, p).value, p);
  }

  // ----- What is not settled yet -----

  predicate ExpandedAt(s: State, p: Path) {
    p in s.nodes && s.nodes[p].expanded
  }

  predicate Alive(s: State, p: Path) {
    p in s.nodes && s.nodes[p].Live()
  }

  function NotDead(c: Config, s: State): set<Path> {
    set p | p in Places(c.space, []) && !DeadAt(s, p)
  }

  function NotExpanded(c: Config, s: State): set<Path> {
    set p | p in Places(c.space, []) && !ExpandedAt(s, p)
  }

  function Unsettled(c: Config, s: State): nat {
    |NotDead(c, s)| + |NotExpanded(c, s)|
  }

  lemma SubsetIsSmaller(a: set<Path>, b: set<Path>)
    requires a <= b
    ensures |a| <= |b|
    ensures a != b ==> |a| < |b|
  {
    assert b == a + (b - a);
  }

  /** Nothing comes back to life, and nothing leaves the explicit tree. */
  ghost predicate Settles(s: State, s': State) {
    forall p :: p in s.nodes ==> (DeadAt(s, p) ==> DeadAt(s', p)) && (ExpandedAt(s, p) ==> ExpandedAt(s', p))
  }

  lemma UnsettledFalls(c: Config, s: State, s': State)
    requires Settles(s, s')
    ensures Unsettled(c, s') <= Unsettled(c, s)
    ensures forall p :: At(c.space, p).Some? && !DeadAt(s, p) && DeadAt(s', p) ==> Unsettled(c, s') < Unsettled(c, s)
    ensures forall p :: At(c.space, p).Some? && !ExpandedAt(s, p) && ExpandedAt(s', p) ==> Unsettled(c, s') < Unsettled(c, s)
  {
    SubsetIsSmaller(NotDead(c, s'), NotDead(c, s));
    SubsetIsSmaller(NotExpanded(c, s'), NotExpanded(c, s));
    forall p | At(c.space, p).Some? && !DeadAt(s, p) && DeadAt(s', p) ensures Unsettled(c, s') < Unsettled(c, s) {
      IsPlace(c.space, p);
      assert p in NotDead(c, s) && p !in NotDead(c, s');
    }
    forall p | At(c.space, p).Some? && !ExpandedAt(s, p) && ExpandedAt(s', p) ensures Unsettled(c, s') < Unsettled(c, s) {
      IsPlace(c.space, p);
      assert p in NotExpanded(c, s) && p !in NotExpanded(c, s');
    }
  }

  lemma UnsettledBound(c: Config, s: State)
    ensures Unsettled(c, s) <= 2 * Size(c.space)
  {
    SubsetIsSmaller(NotDead(c, s), Places(c.space, []));
    SubsetIsSmaller(NotExpanded(c, s), Places(c.space, []));
  }

  // ----- The way left through the tree as it is -----

  /** The steps a worker may take at one node. */
  function Width(size: nat): nat {
    4 * size + 12
  }

  /** Going down: what is below the node, then the steps left at the node. */
  function Down(size: nat, below: nat, steps: nat): nat {
    below * Width(size) + steps
  }

  /** Going up, which comes before going down again. */
  function Up(size: nat, frames: nat, steps: nat): nat {
    Down(size, size + 2, 6 * frames + steps)
  }

  lemma DownFalls(size: nat, below: nat, steps: nat, below': nat, steps': nat)
    requires steps' < Width(size) && below' < below
    ensures Down(size, below', steps') < Down(size, below, steps)
  {
    assert (below' + 1) * Width(size) <= below * Width(size);
  }

  function StepsAt(arity: nat, pc: Pc): nat {
    match pc
    case RootCheck => 4 * arity + 11
    case ExpandCut => 4 * arity + 10
    case ExpandAcquire => 4 * arity + 9
    case Expanding(i, _) => 2 * arity + 8 + 2 * (if i < arity then arity - i else 0)
    case Storing(i, _) => 2 * arity + 7 + 2 * (if i < arity then arity - i else 0)
    case Walk(_) => 2 * arity + 6
    case Checking => 2 * arity + 5
    case CheckingEpoch => 2 * arity + 4
    case Refreshing => 2 * arity + 3
    case CutHere => 2 * arity + 2
    case CheckingNode => 2 * arity + 2
    case Scanning(i, _, _) => 1 + 2 * (if i < arity then arity - i else 0)
    case Sorting(i, _, _) => 2 * (if i < arity then arity - i else 0)
    case _ => 0
  }

  function StepsUp(pc: Pc): nat {
    match pc
    case DeadEnd => 5
    case Checking => 4
    case CheckingEpoch => 3
    case Refreshing => 2
    case CutHere => 1
    case CheckingNode => 1
    case _ => 0
  }

  function StepsToStart(pc: Pc): nat {
    match pc
    case Outside => 3
    case Loop => 2
    case LoadEpoch => 1
    case _ => 0
  }

  predicate Starting(pc: Pc) {
    pc.Outside? || pc.Loop? || pc.LoadEpoch? || pc.RootCut?
  }

  predicate Ended(pc: Pc) {
    pc.Finished? || pc.Panicked?
  }

  /** The way left for a worker before something is settled. */
  function Way(c: Config, s: State, w: Worker): nat {
    var size := Size(c.space);
    if Ended(w.pc) then 0
    else if Starting(w.pc) then Down(size, size + 1, StepsToStart(w.pc))
    else if Alive(s, w.node) && !w.pc.DeadEnd? then Down(size, SizeAt(c.space, w.node), StepsAt(s.nodes[w.node].arity, w.pc))
    else Up(size, |w.frames|, StepsUp(w.pc))
  }

  /** More than any way. */
  function WayLimit(size: nat): nat {
    Up(size, size + 1, 6)
  }

  /** The steps a lone worker may still take. */
  function StepsLeft(c: Config, s: State, t: nat): nat
    requires t < |s.workers|
  {
    Unsettled(c, s) * WayLimit(Size(c.space)) + Way(c, s, s.workers[t])
  }

  lemma SettledStep(size: nat, u: nat, way: nat, u': nat, way': nat)
    requires u' < u && way' < WayLimit(size)
    ensures u' * WayLimit(size) + way' < u * WayLimit(size) + way
  {
    assert (u' + 1) * WayLimit(size) <= u * WayLimit(size);
  }

  lemma UnsettledMonotone(size: nat, u: nat, u': nat)
    requires u' <= u
    ensures u' * WayLimit(size) <= u * WayLimit(size)
  {
  }

  /** A limit that depends on the search space alone. */
  function StepLimit(c: Config): nat {
    (2 * Size(c.space) + 1) * WayLimit(Size(c.space))
  }
}
