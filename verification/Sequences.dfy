/** Sequences of sequences, maps over sequences, and their permutations. */
module Sequences {
  function Flatten<T>(parts: seq<seq<T>>): seq<T> {
    if parts == [] then [] else Flatten(parts[..|parts| - 1]) + parts[|parts| - 1]
  }

  ghost predicate NoRepeatIn<T(!new)>(s: seq<T>) {
    forall i, j :: 0 <= i < j < |s| ==> s[i] != s[j]
  }

  lemma {:induction false} InFlatten<T>(parts: seq<seq<T>>, e: T)
    ensures e in Flatten(parts) <==> exists v :: 0 <= v < |parts| && e in parts[v]
  {
    if parts != [] {
      var n := |parts| - 1;
      InFlatten(parts[..n], e);
      assert e in Flatten(parts) <==> e in Flatten(parts[..n]) || e in parts[n];
      if v :| 0 <= v < n && e in parts[..n][v] {
        assert e in parts[v];
      }
      if v :| 0 <= v < |parts| && e in parts[v] {
        assert v < n ==> e in parts[..n][v];
      }
    }
  }

  lemma {:induction false} FlattenNoRepeat<T(!new)>(parts: seq<seq<T>>)
    requires forall v :: 0 <= v < |parts| ==> NoRepeatIn(parts[v])
    requires forall u, v, e :: 0 <= u < v < |parts| && e in parts[u] ==> e !in parts[v]
    ensures NoRepeatIn(Flatten(parts))
  {
    if parts != [] {
      var n := |parts| - 1;
      FlattenNoRepeat(parts[..n]);
      var before := Flatten(parts[..n]);
      forall i, j | 0 <= i < |before| && 0 <= j < |parts[n]| ensures before[i] != parts[n][j] {
        InFlatten(parts[..n], before[i]);
      }
    }
  }

  /** An element of a flattened sequence, with its part; inside a part, neighbours stay neighbours. */
  lemma {:induction false} FlattenAt<T>(parts: seq<seq<T>>, k: nat) returns (v: nat, j: nat)
    requires k < |Flatten(parts)|
    ensures v < |parts| && j < |parts[v]| && Flatten(parts)[k] == parts[v][j]
    ensures j > 0 ==> k > 0 && Flatten(parts)[k - 1] == parts[v][j - 1]
  {
    var n := |parts| - 1;
    var before := Flatten(parts[..n]);
    if k < |before| {
      v, j := FlattenAt(parts[..n], k);
    } else {
      v, j := n, k - |before|;
    }
  }

  function Map<A, B>(f: A -> B, s: seq<A>): (r: seq<B>)
    ensures |r| == |s| && forall k :: 0 <= k < |s| ==> r[k] == f(s[k])
  {
    if s == [] then [] else Map(f, s[..|s| - 1]) + [f(s[|s| - 1])]
  }

  lemma MapConcat<A, B>(f: A -> B, a: seq<A>, b: seq<A>)
    ensures Map(f, a + b) == Map(f, a) + Map(f, b)
  {
  }

  function Without<A>(s: seq<A>, k: nat): (r: seq<A>)
    requires k < |s|
    ensures |r| == |s| - 1 && forall i :: 0 <= i < |r| ==> r[i] == if i < k then s[i] else s[i + 1]
  {
    s[..k] + s[k + 1..]
  }

  lemma WithoutCounts<A>(s: seq<A>, k: nat)
    requires k < |s|
    ensures multiset(s) == multiset(Without(s, k)) + multiset{s[k]}
  {
    assert s == s[..k] + ([s[k]] + s[k + 1..]);
  }

  lemma MapWithout<A, B>(f: A -> B, s: seq<A>, k: nat)
    requires k < |s|
    ensures Without(Map(f, s), k) == Map(f, Without(s, k))
  {
    var a, b := Without(Map(f, s), k), Map(f, Without(s, k));
    forall i | 0 <= i < |a| ensures a[i] == b[i] {
      var j := if i < k then i else i + 1;
      assert a[i] == Map(f, s)[j] == f(s[j]);
      assert Without(s, k)[i] == s[j];
    }
  }

  /** Permuting a sequence permutes its image. */
  lemma {:induction false} MapPermutation<A, B>(f: A -> B, a: seq<A>, b: seq<A>)
    requires multiset(a) == multiset(b)
    ensures multiset(Map(f, a)) == multiset(Map(f, b))
    decreases |a|
  {
    if a == [] {
      assert |b| == |multiset(b)| == 0;
    } else {
      var k := Occurrence(b, a[0]);
      WithoutCounts(a, 0);
      WithoutCounts(b, k);
      assert multiset(Without(a, 0)) == multiset(a) - multiset{a[0]};
      assert multiset(Without(b, k)) == multiset(b) - multiset{a[0]};
      MapPermutation(f, Without(a, 0), Without(b, k));
      MapWithout(f, a, 0);
      MapWithout(f, b, k);
      WithoutCounts(Map(f, a), 0);
      WithoutCounts(Map(f, b), k);
    }
  }

  lemma Occurrence<A>(s: seq<A>, e: A) returns (k: nat)
    requires e in multiset(s)
    ensures k < |s| && s[k] == e
  {
    k :| 0 <= k < |s| && s[k] == e;
  }

  /** `e` placed before the element at `p`. */
  function InsertAt<T>(s: seq<T>, p: nat, e: T): (r: seq<T>)
    requires p <= |s|
    ensures |r| == |s| + 1 && r[p] == e
    ensures forall k :: 0 <= k < p ==> r[k] == s[k]
    ensures forall k :: p < k < |r| ==> r[k] == s[k - 1]
  {
    s[..p] + [e] + s[p..]
  }

  lemma Regroup<T>(a: seq<T>, x: T, b: seq<T>)
    ensures a + ([x] + b) == (a + [x]) + b
  {
  }

  lemma TailCounts<T>(s: seq<T>, x: T)
    requires s != [] && s[0] == x
    ensures multiset(s[1..]) == multiset(s) - multiset{x}
  {
    assert s == [x] + s[1..];
  }
}
