/** The layouts a temporary block may take: every order of its inner dimensions, up to a size. */
module LayoutChoices {
  type Pair = (nat, nat)

  /** Strides from this size on make no difference. */
  const MAX_STRIDE := 32 * 8

  /** The inner dimensions ordered so far, the innermost first, the others, and the size of the former. */
  datatype Partial = Partial(ordered: seq<Pair>, remaining: seq<Pair>, size: nat)

  /** The store and load dimensions, the outermost first. */
  datatype Layout = Layout(stores: seq<nat>, loads: seq<nat>)

  function SizeOf(base: nat, minSize: nat -> nat, ordered: seq<Pair>): nat {
    if ordered == [] then base else SizeOf(base, minSize, ordered[..|ordered| - 1]) * minSize(ordered[|ordered| - 1].0)
  }

  function Reverse(s: seq<Pair>): (r: seq<Pair>)
    ensures |r| == |s| && forall k :: 0 <= k < |s| ==> r[k] == s[|s| - 1 - k]
    ensures multiset(r) == multiset(s)
  {
    if s == [] then []
    else
      assert s == s[..|s| - 1] + [s[|s| - 1]];
      [s[|s| - 1]] + Reverse(s[..|s| - 1])
  }

  function Unzip(pairs: seq<Pair>): Layout {
    Layout(seq<nat>(|pairs|, k requires 0 <= k < |pairs| => pairs[k].0), seq<nat>(|pairs|, k requires 0 <= k < |pairs| => pairs[k].1))
  }

  function SwapRemove(s: seq<Pair>, i: nat): (r: seq<Pair>)
    requires i < |s|
    ensures |r| == |s| - 1 && multiset(r) + multiset{s[i]} == multiset(s)
  {
    var n := |s| - 1;
    assert s == s[..n] + [s[n]];
    if i == n then s[..n]
    else
      assert s[..n] == s[..i] + [s[i]] + s[i + 1..n];
      assert s[i := s[n]][..n] == s[..i] + [s[n]] + s[i + 1..n];
      s[i := s[n]][..n]
  }

  // ----- Choices -----

  ghost predicate Distinct(s: seq<Pair>) {
    forall i, j :: 0 <= i < j < |s| ==> s[i] != s[j]
  }

  /** Every strict prefix is below the greatest stride. */
  ghost predicate Small(base: nat, minSize: nat -> nat, c: seq<Pair>) {
    forall k :: 0 <= k < |c| ==> SizeOf(base, minSize, c[..k]) < MAX_STRIDE
  }

  /** An order of inner dimensions, stopped when the stride is large enough or no dimension is left. */
  ghost predicate IsChoice(mapped: seq<Pair>, base: nat, minSize: nat -> nat, c: seq<Pair>) {
    && Distinct(c) && (forall p :: p in c ==> p in mapped) && Small(base, minSize, c)
    && (SizeOf(base, minSize, c) >= MAX_STRIDE || forall p :: p in mapped ==> p in c)
  }

  ghost predicate PartialOk(mapped: seq<Pair>, base: nat, minSize: nat -> nat, e: Partial) {
    && multiset(e.ordered) + multiset(e.remaining) == multiset(mapped)
    && e.size == SizeOf(base, minSize, e.ordered) && Small(base, minSize, e.ordered)
  }

  predicate IsLeaf(e: Partial) {
    e.size >= MAX_STRIDE || e.remaining == []
  }

  function LayoutOf(e: Partial): Layout {
    Unzip(e.remaining + Reverse(e.ordered))
  }

  function Child(minSize: nat -> nat, e: Partial, i: nat): Partial
    requires i < |e.remaining|
  {
    Partial(e.ordered + [e.remaining[i]], SwapRemove(e.remaining, i), e.size * minSize(e.remaining[i].0))
  }

  // ----- Work left -----

  /** The nodes below a partial choice with `n` dimensions left. */
  function Nodes(n: nat): nat {
    if n == 0 then 1 else 1 + n * Nodes(n - 1)
  }

  function Work(stack: seq<Partial>): nat {
    if stack == [] then 0 else Work(stack[..|stack| - 1]) + Nodes(|stack[|stack| - 1].remaining|)
  }

  lemma {:induction false} WorkConcat(a: seq<Partial>, b: seq<Partial>)
    ensures Work(a + b) == Work(a) + Work(b)
  {
    if b == [] {
      assert a + b == a;
    } else {
      assert (a + b)[..|a + b| - 1] == a + b[..|b| - 1];
      WorkConcat(a, b[..|b| - 1]);
    }
  }

  // ----- The stack of partial choices -----

  /** Nothing is found twice: partial choices exclude each other and what was found. */
  ghost predicate Apart(stack: seq<Partial>, found: seq<seq<Pair>>) {
    && (forall k, j :: 0 <= k < |stack| && 0 <= j < |found| ==> !(stack[k].ordered <= found[j]))
    && (forall k, l :: 0 <= k < |stack| && 0 <= l < |stack| && k != l ==> !(stack[k].ordered <= stack[l].ordered))
    && (forall i, j :: 0 <= i < j < |found| ==> found[i] != found[j])
  }

  ghost predicate Begins(stack: seq<Partial>, c: seq<Pair>) {
    exists k :: 0 <= k < |stack| && stack[k].ordered <= c
  }

  /** Every choice is found, or begins with a partial one. */
  ghost predicate Covers(mapped: seq<Pair>, base: nat, minSize: nat -> nat, stack: seq<Partial>, found: seq<seq<Pair>>) {
    && (forall k :: 0 <= k < |stack| ==> PartialOk(mapped, base, minSize, stack[k]))
    && (forall c :: c in found ==> IsChoice(mapped, base, minSize, c))
    && (forall c :: IsChoice(mapped, base, minSize, c) ==> c in found || Begins(stack, c))
  }

  /** Stores are the first dimensions and loads the second ones of the outer pairs and then, from the last to the first, of the chosen ones. */
  ghost predicate Lists(layout: Layout, outer: seq<Pair>, c: seq<Pair>) {
    var n := |outer| + |c|;
    && |layout.stores| == n && |layout.loads| == n
    && (forall k :: 0 <= k < |outer| ==> layout.stores[k] == outer[k].0 && layout.loads[k] == outer[k].1)
    && (forall k :: 0 <= k < |c| ==> layout.stores[n - 1 - k] == c[k].0 && layout.loads[n - 1 - k] == c[k].1)
  }

  /** A layout lists the dimensions of the block, inner ones as chosen, stores and loads alike. */
  ghost predicate Realises(mapped: seq<Pair>, layout: Layout, c: seq<Pair>) {
    exists outer :: multiset(outer + c) == multiset(mapped) && Lists(layout, outer, c)
  }

  lemma Members(mapped: seq<Pair>, e: Partial)
    requires Distinct(mapped) && multiset(e.ordered) + multiset(e.remaining) == multiset(mapped)
    ensures Distinct(e.ordered) && Distinct(e.remaining) && (forall p :: p in e.ordered ==> p !in e.remaining)
    ensures forall p :: p in mapped <==> p in e.ordered || p in e.remaining
  {
    DistinctCounts(mapped);
    forall p ensures multiset(e.ordered)[p] + multiset(e.remaining)[p] <= 1 {
      assert multiset(mapped)[p] <= 1;
    }
    CountsDistinct(e.ordered);
    CountsDistinct(e.remaining);
    forall p ensures p in mapped <==> p in e.ordered || p in e.remaining {
      assert p in mapped <==> p in multiset(mapped);
      assert p in e.ordered <==> p in multiset(e.ordered);
      assert p in e.remaining <==> p in multiset(e.remaining);
    }
    forall p | p in e.ordered ensures p !in e.remaining {
      assert p in multiset(e.ordered);
      assert p in e.remaining ==> p in multiset(e.remaining);
    }
  }

  lemma {:induction false} DistinctCounts(s: seq<Pair>)
    requires Distinct(s)
    ensures forall p :: multiset(s)[p] <= 1
  {
    if s != [] {
      var n := |s| - 1;
      DistinctCounts(s[..n]);
      assert s == s[..n] + [s[n]];
      assert s[n] !in s[..n];
      assert s[n] !in multiset(s[..n]);
    }
  }

  lemma CountsDistinct(s: seq<Pair>)
    requires forall p :: multiset(s)[p] <= 1
    ensures Distinct(s)
  {
    forall i, j | 0 <= i < j < |s| ensures s[i] != s[j] {
      assert s == s[..i] + [s[i]] + s[i + 1..j] + [s[j]] + s[j + 1..];
      assert multiset(s) == multiset(s[..i]) + multiset{s[i]} + multiset(s[i + 1..j]) + multiset{s[j]} + multiset(s[j + 1..]);
      assert multiset(s)[s[i]] >= 1 + if s[j] == s[i] then 1 else 0;
    }
  }

  /** A partial choice with a longer choice behind it is not a leaf. */
  lemma LongerChoice(mapped: seq<Pair>, base: nat, minSize: nat -> nat, e: Partial, c: seq<Pair>)
    requires Distinct(mapped) && PartialOk(mapped, base, minSize, e)
    requires IsChoice(mapped, base, minSize, c) && e.ordered <= c && |c| > |e.ordered|
    ensures !IsLeaf(e) && c[|e.ordered|] in e.remaining
  {
    Members(mapped, e);
    var n := |e.ordered|;
    assert c[..n] == e.ordered && SizeOf(base, minSize, c[..n]) < MAX_STRIDE;
    assert c[n] in c && c[n] in mapped;
    forall k | 0 <= k < n ensures e.ordered[k] != c[n] {
      assert e.ordered[k] == c[k];
    }
  }

  lemma InnerNode(mapped: seq<Pair>, base: nat, minSize: nat -> nat, e: Partial)
    requires Distinct(mapped) && PartialOk(mapped, base, minSize, e)
    ensures IsChoice(mapped, base, minSize, e.ordered) <==> IsLeaf(e)
  {
    Members(mapped, e);
    if e.remaining != [] {
      assert e.remaining[0] in e.remaining && e.remaining[0] in mapped && e.remaining[0] !in e.ordered;
    }
  }

  /** A leaf is a choice, and the only one that begins with it. */
  lemma LeafChoice(mapped: seq<Pair>, base: nat, minSize: nat -> nat, e: Partial, c: seq<Pair>)
    requires Distinct(mapped) && PartialOk(mapped, base, minSize, e) && IsLeaf(e)
    ensures IsChoice(mapped, base, minSize, e.ordered)
    ensures IsChoice(mapped, base, minSize, c) && e.ordered <= c ==> c == e.ordered
  {
    InnerNode(mapped, base, minSize, e);
    if IsChoice(mapped, base, minSize, c) && e.ordered <= c && |c| > |e.ordered| {
      LongerChoice(mapped, base, minSize, e, c);
      assert false;
    }
  }

  /** A choice that begins with an inner node begins with one of its children. */
  lemma NextChoice(mapped: seq<Pair>, base: nat, minSize: nat -> nat, e: Partial, c: seq<Pair>) returns (i: nat)
    requires Distinct(mapped) && PartialOk(mapped, base, minSize, e) && !IsLeaf(e)
    requires IsChoice(mapped, base, minSize, c) && e.ordered <= c
    ensures i < |e.remaining| && Child(minSize, e, i).ordered <= c
  {
    InnerNode(mapped, base, minSize, e);
    var n := |e.ordered|;
    assert |c| == n ==> c == e.ordered;
    LongerChoice(mapped, base, minSize, e, c);
    i :| 0 <= i < |e.remaining| && e.remaining[i] == c[n];
    assert c[..n + 1] == c[..n] + [c[n]];
  }

  lemma ChildOk(mapped: seq<Pair>, base: nat, minSize: nat -> nat, e: Partial, i: nat)
    requires PartialOk(mapped, base, minSize, e) && !IsLeaf(e) && i < |e.remaining|
    ensures PartialOk(mapped, base, minSize, Child(minSize, e, i))
  {
    var child := Child(minSize, e, i);
    var n := |e.ordered|;
    assert child.ordered[..n] == e.ordered;
    forall k | 0 <= k < |child.ordered| ensures SizeOf(base, minSize, child.ordered[..k]) < MAX_STRIDE {
      if k < n {
        assert child.ordered[..k] == e.ordered[..k];
      }
    }
  }

  /** The children of a node, in the order they are pushed. */
  function Children(minSize: nat -> nat, e: Partial): (r: seq<Partial>)
    ensures |r| == |e.remaining| && forall i :: 0 <= i < |r| ==> r[i] == Child(minSize, e, i)
  {
    seq(|e.remaining|, i requires 0 <= i < |e.remaining| => Child(minSize, e, i))
  }

  lemma {:induction false} SameWork(stack: seq<Partial>, m: nat)
    requires forall k :: 0 <= k < |stack| ==> |stack[k].remaining| == m
    ensures Work(stack) == |stack| * Nodes(m)
  {
    if stack != [] {
      var n := |stack| - 1;
      SameWork(stack[..n], m);
      OneMore(n, Nodes(m));
    }
  }

  lemma OneMore(n: nat, w: nat)
    ensures n * w + w == (n + 1) * w
  {
  }

  lemma ExpandWork(minSize: nat -> nat, e: Partial, rest: seq<Partial>)
    requires e.remaining != []
    ensures Work(rest + Children(minSize, e)) < Work(rest + [e])
  {
    WorkConcat(rest, Children(minSize, e));
    WorkConcat(rest, [e]);
    assert Work([]) == 0 && Work([e]) == Nodes(|e.remaining|) by {
      assert [e][..0] == [];
    }
    SameWork(Children(minSize, e), |e.remaining| - 1);
  }

  lemma PrefixTrans(a: seq<Pair>, b: seq<Pair>, c: seq<Pair>)
    ensures a <= b && b <= c ==> a <= c
  {
  }

  /** Children exclude each other and whatever their parent excluded. */
  lemma ExpandApart(mapped: seq<Pair>, minSize: nat -> nat, e: Partial, rest: seq<Partial>, found: seq<seq<Pair>>)
    requires Distinct(e.remaining) && Apart(rest + [e], found)
    ensures Apart(rest + Children(minSize, e), found)
  {
    var old_, new_, n := rest + [e], rest + Children(minSize, e), |rest|;
    assert old_[n] == e;
    forall k, j | 0 <= k < |new_| && 0 <= j < |found| ensures !(new_[k].ordered <= found[j]) {
      if k < n {
        assert old_[k] == rest[k];
      } else {
        assert e.ordered <= new_[k].ordered;
      }
    }
    forall k, l | 0 <= k < |new_| && 0 <= l < |new_| && k != l ensures !(new_[k].ordered <= new_[l].ordered) {
      if k < n {
        assert old_[k] == rest[k] && !(old_[k].ordered <= old_[n].ordered) && !(old_[n].ordered <= old_[k].ordered);
      }
      if l < n {
        assert old_[l] == rest[l] && !(old_[n].ordered <= old_[l].ordered);
      }
      if k < n && l < n {
        assert !(old_[k].ordered <= old_[l].ordered);
      }
      ChildrenApart(minSize, e, rest, k, l);
    }
  }

  lemma ChildrenApart(minSize: nat -> nat, e: Partial, rest: seq<Partial>, k: nat, l: nat)
    requires Distinct(e.remaining) && k < |rest| + |e.remaining| && l < |rest| + |e.remaining| && k != l
    requires k < |rest| && l < |rest| ==> !(rest[k].ordered <= rest[l].ordered)
    requires k < |rest| ==> !(rest[k].ordered <= e.ordered)
    requires l < |rest| ==> !(e.ordered <= rest[l].ordered)
    requires k < |rest| ==> !(e.ordered <= rest[k].ordered)
    ensures !((rest + Children(minSize, e))[k].ordered <= (rest + Children(minSize, e))[l].ordered)
  {
    var new_, n := rest + Children(minSize, e), |rest|;
    var a, b := new_[k].ordered, new_[l].ordered;
    if n <= k && n <= l {
      assert a[|e.ordered|] == e.remaining[k - n] && b[|e.ordered|] == e.remaining[l - n];
      assert e.remaining[k - n] != e.remaining[l - n];
    } else if n <= k {
      assert e.ordered <= a;
    } else if n <= l {
      assert b == e.ordered + [e.remaining[l - n]];
      if a <= b {
        assert false;
      }
    }
  }

  // ----- The enumeration -----

  /** The stack after its top was replaced by its children still covers every choice. */
  lemma ExpandCovers(mapped: seq<Pair>, base: nat, minSize: nat -> nat, rest: seq<Partial>, e: Partial, found: seq<seq<Pair>>)
    requires Distinct(mapped) && Covers(mapped, base, minSize, rest + [e], found) && !IsLeaf(e)
    ensures Covers(mapped, base, minSize, rest + Children(minSize, e), found)
  {
    var old_, new_, n := rest + [e], rest + Children(minSize, e), |rest|;
    assert old_[n] == e;
    forall k | 0 <= k < |new_| ensures PartialOk(mapped, base, minSize, new_[k]) {
      if k < n {
        assert old_[k] == rest[k];
      } else {
        ChildOk(mapped, base, minSize, e, k - n);
      }
    }
    forall c | IsChoice(mapped, base, minSize, c) ensures c in found || Begins(new_, c) {
      if c !in found {
        StillBegins(mapped, base, minSize, rest, e, c);
      }
    }
  }

  lemma StillBegins(mapped: seq<Pair>, base: nat, minSize: nat -> nat, rest: seq<Partial>, e: Partial, c: seq<Pair>)
    requires Distinct(mapped) && PartialOk(mapped, base, minSize, e) && !IsLeaf(e)
    requires IsChoice(mapped, base, minSize, c) && Begins(rest + [e], c)
    ensures Begins(rest + Children(minSize, e), c)
  {
    var old_, new_, n := rest + [e], rest + Children(minSize, e), |rest|;
    var k :| 0 <= k < |old_| && old_[k].ordered <= c;
    if k < n {
      assert new_[k].ordered <= c;
    } else {
      var i := NextChoice(mapped, base, minSize, e, c);
      assert new_[n + i].ordered <= c;
    }
  }

  /** A leaf taken from the stack is one more choice. */
  lemma LeafCovers(mapped: seq<Pair>, base: nat, minSize: nat -> nat, rest: seq<Partial>, e: Partial, found: seq<seq<Pair>>)
    requires Distinct(mapped) && Covers(mapped, base, minSize, rest + [e], found) && Apart(rest + [e], found) && IsLeaf(e)
    ensures Covers(mapped, base, minSize, rest, found + [e.ordered]) && Apart(rest, found + [e.ordered])
  {
    var old_, n := rest + [e], |rest|;
    assert old_[n] == e && forall k :: 0 <= k < n ==> old_[k] == rest[k];
    LeafChoice(mapped, base, minSize, e, e.ordered);
    forall c | IsChoice(mapped, base, minSize, c) ensures c in found + [e.ordered] || Begins(rest, c) {
      if c !in found {
        var k :| 0 <= k < |old_| && old_[k].ordered <= c;
        if k < n {
          assert rest[k].ordered <= c;
        } else {
          LeafChoice(mapped, base, minSize, e, c);
        }
      }
    }
    forall j | 0 <= j < |found| ensures found[j] != e.ordered {
      assert !(old_[n].ordered <= found[j]);
    }
  }

  lemma LeafRealises(mapped: seq<Pair>, base: nat, minSize: nat -> nat, e: Partial)
    requires PartialOk(mapped, base, minSize, e)
    ensures Realises(mapped, LayoutOf(e), e.ordered)
  {
    assert multiset(e.remaining + e.ordered) == multiset(mapped);
    assert Lists(LayoutOf(e), e.remaining, e.ordered);
  }

  ghost predicate Realised(mapped: seq<Pair>, layouts: seq<Layout>, choices: seq<seq<Pair>>) {
    |layouts| == |choices| && forall k :: 0 <= k < |layouts| ==> Realises(mapped, layouts[k], choices[k])
  }

  lemma OneMoreRealised(mapped: seq<Pair>, base: nat, minSize: nat -> nat, layouts: seq<Layout>, choices: seq<seq<Pair>>, e: Partial)
    requires Realised(mapped, layouts, choices) && PartialOk(mapped, base, minSize, e)
    ensures Realised(mapped, layouts + [LayoutOf(e)], choices + [e.ordered])
  {
    LeafRealises(mapped, base, minSize, e);
  }

  /** The layouts realise the choices one by one, and these are all the choices, once each. */
  ghost predicate Enumerates(mapped: seq<Pair>, base: nat, minSize: nat -> nat, layouts: seq<Layout>, choices: seq<seq<Pair>>) {
    && Realised(mapped, layouts, choices)
    && (forall c :: c in choices <==> IsChoice(mapped, base, minSize, c))
    && (forall i, j :: 0 <= i < j < |choices| ==> choices[i] != choices[j])
  }

  /**
   Lists the layouts of a block. The enumeration ends; each layout orders stores and loads by the
   same permutation of the mapped pairs; each order of inner dimensions up to the greatest stride
   is listed exactly once.
   */
  method LowerLayoutChoice(mapped: seq<Pair>, base: nat, minSize: nat -> nat) returns (layouts: seq<Layout>)
    requires Distinct(mapped)
    ensures exists choices :: Enumerates(mapped, base, minSize, layouts, choices)
  {
    var stack := [Partial([], mapped, base)];
    layouts := [];
    ghost var choices: seq<seq<Pair>> := [];
    assert multiset([]) + multiset(mapped) == multiset(mapped);
    forall c | IsChoice(mapped, base, minSize, c) ensures Begins(stack, c) {
      assert stack[0].ordered <= c;
    }
    while stack != []
      invariant Covers(mapped, base, minSize, stack, choices) && Apart(stack, choices)
      invariant Realised(mapped, layouts, choices)
      decreases Work(stack)
    {
      var e, rest := stack[|stack| - 1], stack[..|stack| - 1];
      assert stack == rest + [e];
      assert PartialOk(mapped, base, minSize, e);
      if IsLeaf(e) {
        LeafCovers(mapped, base, minSize, rest, e, choices);
        OneMoreRealised(mapped, base, minSize, layouts, choices, e);
        LeafWork(rest, e);
        layouts, stack := layouts + [LayoutOf(e)], rest;
        choices := choices + [e.ordered];
      } else {
        Members(mapped, e);
        ExpandCovers(mapped, base, minSize, rest, e, choices);
        ExpandApart(mapped, minSize, e, rest, choices);
        ExpandWork(minSize, e, rest);
        stack := PushChildren(rest, e, minSize);
      }
    }
    assert Enumerates(mapped, base, minSize, layouts, choices);
  }

  method PushChildren(rest: seq<Partial>, e: Partial, minSize: nat -> nat) returns (stack: seq<Partial>)
    ensures stack == rest + Children(minSize, e)
  {
    stack := rest;
    for i := 0 to |e.remaining|
      invariant stack == rest + Children(minSize, e)[..i]
    {
      var remaining := SwapRemove(e.remaining, i);
      stack := stack + [Partial(e.ordered + [e.remaining[i]], remaining, e.size * minSize(e.remaining[i].0))];
    }
    assert Children(minSize, e)[..|e.remaining|] == Children(minSize, e);
  }

  lemma LeafWork(rest: seq<Partial>, e: Partial)
    ensures Work(rest) < Work(rest + [e])
  {
    assert (rest + [e])[..|rest|] == rest;
  }
}
