/** The best evaluations seen below each edge of the search tree. */
module EvaluationLists {
  import opened Wrappers
  import opened Sequences

  ghost predicate Sorted(s: seq<real>) {
    forall i, j :: 0 <= i < j < |s| ==> s[i] <= s[j]
  }

  function Min(a: nat, b: nat): nat {
    if a <= b then a else b
  }

  /** `best` lists in order the `k` smallest of the values seen, or all of them if there are fewer. */
  ghost predicate IsBest(best: seq<real>, seen: multiset<real>, k: nat) {
    && Sorted(best) && |best| == Min(k, |seen|) && multiset(best) <= seen
    && forall x, i :: x in seen - multiset(best) && 0 <= i < |best| ==> best[i] <= x
  }

  function CountLe(s: seq<real>, t: real): nat {
    if s == [] then 0 else CountLe(s[..|s| - 1], t) + if s[|s| - 1] <= t then 1 else 0
  }

  lemma {:induction false} CountSorted(s: seq<real>, t: real, n: nat)
    requires n <= |s| && (forall i :: 0 <= i < n ==> s[i] <= t) && (forall i :: n <= i < |s| ==> s[i] > t)
    ensures CountLe(s, t) == n
  {
    if s != [] {
      var m := |s| - 1;
      CountSorted(s[..m], t, if n > m then m else n);
    }
  }

  class Evaluations {
    var values: seq<real>

    constructor ()
      ensures values == []
    {
      values := [];
    }

    /** The place of a value, or where it would be inserted. */
    method BinarySearch(x: real) returns (found: bool, pos: nat)
      requires Sorted(values)
      ensures found ==> pos < |values| && values[pos] == x
      ensures pos <= |values| && (forall i :: 0 <= i < pos ==> values[i] <= x) && (forall i :: pos <= i < |values| ==> x <= values[i])
      ensures !found ==> forall i :: 0 <= i < |values| ==> values[i] != x
    {
      var left, right := 0, |values|;
      while left < right
        invariant 0 <= left <= right <= |values|
        invariant forall i :: 0 <= i < left ==> values[i] < x
        invariant forall i :: right <= i < |values| ==> x < values[i]
      {
        var mid := left + (right - left) / 2;
        if values[mid] < x {
          left := mid + 1;
        } else if values[mid] > x {
          right := mid;
        } else {
          return true, mid;
        }
      }
      return false, left;
    }

    /** The number of values up to the threshold. */
    method CountLte(threshold: real) returns (count: nat)
      requires Sorted(values)
      ensures count == CountLe(values, threshold)
    {
      var found;
      found, count := BinarySearch(threshold);
      if found {
        while count < |values| && values[count] == threshold
          invariant count <= |values| && forall i :: 0 <= i < count ==> values[i] <= threshold
        {
          count := count + 1;
        }
      }
      CountSorted(values, threshold, count);
    }

    /** Records a value among the `topk` smallest; `false` if it is not one of them. */
    method Record(eval: real, topk: nat, ghost seen: multiset<real>) returns (kept: bool)
      requires IsBest(values, seen, topk)
      modifies this
      ensures IsBest(values, seen + multiset{eval}, topk)
      ensures !kept ==> values == old(values) && |values| == topk && forall i :: 0 <= i < |values| ==> values[i] <= eval
    {
      var found, pos := BinarySearch(eval);
      if pos < topk {
        ghost var before := values;
        if |values| >= topk {
          values := values[..|values| - 1];
        }
        values := InsertAt(values, pos, eval);
        InsertBest(before, seen, topk, eval, pos, values);
        kept := true;
      } else {
        TooLarge(values, seen, topk, eval);
        kept := false;
      }
    }

    method Max() returns (max: Option<real>)
      requires Sorted(values)
      ensures values == [] ==> max == None
      ensures values != [] ==> max == Some(values[|values| - 1]) && forall i :: 0 <= i < |values| ==> values[i] <= max.value
    {
      max := if values == [] then None else Some(values[|values| - 1]);
    }
  }

  /** A value not below the `k` smallest ones does not change them. */
  lemma TooLarge(best: seq<real>, seen: multiset<real>, k: nat, x: real)
    requires IsBest(best, seen, k) && |best| == k && forall i :: 0 <= i < |best| ==> best[i] <= x
    ensures IsBest(best, seen + multiset{x}, k)
  {
    forall y, i | y in seen + multiset{x} - multiset(best) && 0 <= i < |best| ensures best[i] <= y {
      assert y == x || y in seen - multiset(best);
    }
  }

  /** `x` fits at `pos`. */
  ghost predicate Fits(s: seq<real>, pos: nat, x: real) {
    pos <= |s| && (forall i :: 0 <= i < pos ==> s[i] <= x) && (forall i :: pos <= i < |s| ==> x <= s[i])
  }

  lemma InsertSorted(s: seq<real>, pos: nat, x: real)
    requires Sorted(s) && Fits(s, pos, x)
    ensures Sorted(InsertAt(s, pos, x)) && multiset(InsertAt(s, pos, x)) == multiset(s) + multiset{x}
  {
    InsertCounts(s, pos, x);
    var r := InsertAt(s, pos, x);
    forall i, j | 0 <= i < j < |r| ensures r[i] <= r[j] {
      if i == pos {
        assert r[j] == s[j - 1];
      } else if j == pos {
        assert r[i] == s[i];
      }
    }
  }

  /** While there is room, everything is kept. */
  lemma InsertMore(before: seq<real>, seen: multiset<real>, k: nat, x: real, pos: nat)
    requires IsBest(before, seen, k) && |before| < k && Fits(before, pos, x)
    ensures IsBest(InsertAt(before, pos, x), seen + multiset{x}, k)
  {
    InsertSorted(before, pos, x);
    SameSize(multiset(before), seen);
    assert |multiset(before)| == |before| == |seen|;
  }

  lemma Shift(seen: multiset<real>, kept: multiset<real>, x: real, last: real)
    requires kept + multiset{last} <= seen
    ensures seen + multiset{x} - (kept + multiset{x}) == seen - (kept + multiset{last}) + multiset{last}
    ensures kept + multiset{x} <= seen + multiset{x}
  {
  }

  lemma AtMostLast(kept: seq<real>, last: real, pos: nat, x: real)
    requires Sorted(kept + [last]) && pos <= |kept| && Fits(kept + [last], pos, x)
    ensures Fits(kept, pos, x) && Sorted(kept) && forall i :: 0 <= i < |InsertAt(kept, pos, x)| ==> InsertAt(kept, pos, x)[i] <= last
  {
    var s, r := kept + [last], InsertAt(kept, pos, x);
    assert forall i :: 0 <= i < |kept| ==> s[i] == kept[i] && s[i] <= s[|kept|];
    assert x <= s[|kept|] == last;
    forall i | 0 <= i < |r| ensures r[i] <= last {
      assert r[i] == if i < pos then kept[i] else if i == pos then x else kept[i - 1];
    }
  }

  /** Otherwise the greatest value kept makes room. */
  lemma InsertInstead(kept: seq<real>, last: real, seen: multiset<real>, k: nat, x: real, pos: nat)
    requires IsBest(kept + [last], seen, k) && |kept| + 1 == k && pos <= |kept| && Fits(kept + [last], pos, x)
    ensures IsBest(InsertAt(kept, pos, x), seen + multiset{x}, k)
  {
    var after := InsertAt(kept, pos, x);
    AtMostLast(kept, last, pos, x);
    InsertSorted(kept, pos, x);
    assert multiset(kept + [last]) == multiset(kept) + multiset{last};
    Shift(seen, multiset(kept), x, last);
    forall y | y in seen + multiset{x} - multiset(after) ensures last <= y {
      if y != last {
        assert y in seen - multiset(kept + [last]);
        assert (kept + [last])[|kept|] <= y;
      }
    }
  }

  lemma InsertBest(before: seq<real>, seen: multiset<real>, k: nat, x: real, pos: nat, after: seq<real>)
    requires IsBest(before, seen, k) && pos < k && Fits(before, pos, x)
    requires |before| < k ==> after == InsertAt(before, pos, x)
    requires |before| >= k ==> after == InsertAt(before[..|before| - 1], pos, x)
    ensures IsBest(after, seen + multiset{x}, k)
  {
    if |before| < k {
      InsertMore(before, seen, k, x, pos);
    } else {
      var kept, last := before[..|before| - 1], before[|before| - 1];
      assert before == kept + [last];
      InsertInstead(kept, last, seen, k, x, pos);
    }
  }

  lemma InsertCounts<T>(s: seq<T>, p: nat, e: T)
    requires p <= |s|
    ensures multiset(InsertAt(s, p, e)) == multiset(s) + multiset{e}
  {
    assert s == s[..p] + s[p..];
    assert InsertAt(s, p, e) == s[..p] + [e] + s[p..];
  }

  // ----- The evaluations of several edges -----

  ghost function All(children: seq<seq<real>>): multiset<real> {
    if children == [] then multiset{} else All(children[..|children| - 1]) + multiset(children[|children| - 1])
  }

  /** The rest of a sorted list does not change the best values once one of them is too large. */
  lemma {:induction false} RestTooLarge(best: seq<real>, seen: multiset<real>, k: nat, child: seq<real>, i: nat)
    requires i < |child| && Sorted(child) && IsBest(best, seen + multiset(child[..i]), k) && |best| == k
    requires forall j :: 0 <= j < |best| ==> best[j] <= child[i]
    ensures IsBest(best, seen + multiset(child), k)
    decreases |child| - i
  {
    assert child[..i + 1] == child[..i] + [child[i]];
    assert seen + multiset(child[..i + 1]) == seen + multiset(child[..i]) + multiset{child[i]};
    TooLarge(best, seen + multiset(child[..i]), k, child[i]);
    if i + 1 < |child| {
      RestTooLarge(best, seen, k, child, i + 1);
    } else {
      assert child[..i + 1] == child;
    }
  }

  /** Merges one sorted list, giving up at the first value that is not kept. */
  method MergeChild(best: Evaluations, child: seq<real>, topk: nat, ghost seen: multiset<real>)
    requires IsBest(best.values, seen, topk) && Sorted(child)
    modifies best
    ensures IsBest(best.values, seen + multiset(child), topk)
  {
    assert child[..0] == [] && seen + multiset{} == seen;
    for i := 0 to |child|
      invariant IsBest(best.values, seen + multiset(child[..i]), topk)
    {
      var kept := best.Record(child[i], topk, seen + multiset(child[..i]));
      assert child[..i + 1] == child[..i] + [child[i]];
      assert seen + multiset(child[..i + 1]) == seen + multiset(child[..i]) + multiset{child[i]};
      if !kept {
        if i + 1 < |child| {
          assert child[i] <= child[i + 1];
          RestTooLarge(best.values, seen, topk, child, i + 1);
        } else {
          assert child[..i + 1] == child;
        }
        return;
      }
    }
    assert child[..|child|] == child;
  }

  /** The threshold under which an edge counts: the greatest of the `topk` best evaluations of all the edges. */
  method Threshold(children: seq<seq<real>>, topk: nat) returns (threshold: Option<real>)
    requires forall c :: 0 <= c < |children| ==> Sorted(children[c])
    ensures exists best :: IsBest(best, All(children), topk) && threshold == if best == [] then None else Some(best[|best| - 1])
  {
    var evalns := new Evaluations();
    for c := 0 to |children|
      invariant IsBest(evalns.values, All(children[..c]), topk)
    {
      assert children[..c + 1][..c] == children[..c];
      MergeChild(evalns, children[c], topk, All(children[..c]));
    }
    assert children[..|children|] == children;
    threshold := evalns.Max();
    assert IsBest(evalns.values, All(children), topk);
  }

  // ----- What the best values say of all the values -----

  /** What each edge keeps is enough: the best of the kept values are the best of all the values seen. */
  lemma BestOfBest(best: seq<real>, kept: multiset<real>, part: seq<real>, seen: multiset<real>, k: nat)
    requires IsBest(best, kept + multiset(part), k) && IsBest(part, seen, k)
    ensures IsBest(best, kept + seen, k)
  {
    var dropped := seen - multiset(part);
    assert kept + seen == kept + multiset(part) + dropped;
    assert multiset(best) <= kept + seen;
    if dropped == multiset{} {
      assert seen == multiset(part);
    } else {
      assert |dropped| > 0 && |seen| == |part| + |dropped|;
      assert |part| == k && |kept + multiset(part)| >= k;
      forall y, i | y in kept + seen - multiset(best) && 0 <= i < |best| ensures best[i] <= y {
        if y !in kept + multiset(part) - multiset(best) {
          assert y in dropped;
          NotAllBelow(best, kept, part, k, i, y);
        }
      }
    }
  }

  /** With `k` values up to `y`, none of the `k` best ones exceeds `y`. */
  lemma NotAllBelow(best: seq<real>, kept: multiset<real>, part: seq<real>, k: nat, i: nat, y: real)
    requires IsBest(best, kept + multiset(part), k) && |part| == k && i < |best|
    requires forall j :: 0 <= j < |part| ==> part[j] <= y
    ensures best[i] <= y
  {
    var left := kept + multiset(part) - multiset(best);
    if x :| x in multiset(part) && x in left {
      var j :| 0 <= j < |part| && part[j] == x;
      assert best[i] <= x;
    } else {
      SubBest(best, multiset(part), left, kept);
      assert |multiset(part)| == |part| == k && |multiset(best)| == |best| <= k;
      SameSize(multiset(part), multiset(best));
      assert best[i] in multiset(best);
      var j :| 0 <= j < |part| && part[j] == best[i];
    }
  }

  lemma SubBest(best: seq<real>, part: multiset<real>, left: multiset<real>, kept: multiset<real>)
    requires left == kept + part - multiset(best) && forall x :: x in part ==> x !in left
    ensures part <= multiset(best)
  {
    forall x ensures part[x] <= multiset(best)[x] {
      if x in part {
        assert left[x] == 0;
      }
    }
  }

  lemma SameSize(a: multiset<real>, b: multiset<real>)
    requires a <= b && |a| >= |b|
    ensures a == b
  {
    assert b == a + (b - a);
    assert |b - a| == 0;
  }
}
