/** Sorting the events of a nest gives the walk through the nest. */
module NestOrder {
  import opened Wrappers
  import opened Nests

  /** Every event comes before the ones to its right, both ways round. */
  ghost predicate Increasing(order: OrderTable, es: seq<Event>) {
    forall i, j :: 0 <= i < j < |es| ==> Ascends(order, es[i], es[j])
  }

  ghost predicate Ascends(order: OrderTable, a: Event, b: Event) {
    Cmp(order, a, b) == Some(Less) && Cmp(order, b, a) == Some(Greater)
  }

  /** The statements of the events are all in `stmts`. */
  ghost predicate Within(es: seq<Event>, stmts: set<Stmt>) {
    forall i :: 0 <= i < |es| ==> StmtOf(es[i]) in stmts
  }

  lemma BracketIncreasing(order: OrderTable, pos: nat -> nat, d: Dim, inner: seq<Event>, stmts: set<Stmt>)
    requires Increasing(order, inner) && Within(inner, stmts) && Encloses(order, DimStmt(d.id), stmts)
    ensures Increasing(order, [EnterOf(pos, d)] + inner + [ExitOf(d)])
  {
    var es := [EnterOf(pos, d)] + inner + [ExitOf(d)];
    forall i, j | 0 <= i < j < |es| ensures Ascends(order, es[i], es[j]) {
      if 0 < i && j < |es| - 1 {
        assert Ascends(order, inner[i - 1], inner[j - 1]);
      } else if 0 < i {
        assert es[i] == inner[i - 1];
      } else if j < |es| - 1 {
        assert es[j] == inner[j - 1];
      }
    }
  }

  lemma {:induction false} BracketsIncreasing(order: OrderTable, pos: nat -> nat, dims: seq<Dim>, inner: seq<Event>, stmts: set<Stmt>)
    requires Increasing(order, inner) && Within(inner, stmts) && Nested(order, dims, stmts)
    ensures Increasing(order, Brackets(pos, dims, inner)) && Within(Brackets(pos, dims, inner), DimStmts(dims) + stmts)
  {
    if dims != [] {
      BracketsIncreasing(order, pos, dims[1..], inner, stmts);
      BracketIncreasing(order, pos, dims[0], Brackets(pos, dims[1..], inner), DimStmts(dims[1..]) + stmts);
      assert DimStmt(dims[0].id) in DimStmts(dims);
      assert DimStmts(dims[1..]) <= DimStmts(dims);
    }
  }

  lemma ConcatIncreasing(order: OrderTable, a: seq<Event>, b: seq<Event>, first: set<Stmt>, second: set<Stmt>)
    requires Increasing(order, a) && Within(a, first) && Increasing(order, b) && Within(b, second)
    requires AllPrecede(order, first, second)
    ensures Increasing(order, a + b) && Within(a + b, first + second)
  {
    forall i, j | 0 <= i < j < |a + b| ensures Ascends(order, (a + b)[i], (a + b)[j]) {
      if i < |a| && |a| <= j {
        assert Precedes(order, StmtOf(a[i]), StmtOf(b[j - |a|]));
      }
    }
  }

  /** The comparison never panics on the events of a nest, and agrees with their places in the walk. */
  lemma {:induction false} WalkIncreasing(order: OrderTable, pos: nat -> nat, n: Nest)
    requires Induced(order, n)
    ensures Increasing(order, Events(pos, n)) && Within(Events(pos, n), Stmts(n))
  {
    match n
    case Inst(_) =>
    case Vector(dims, id) => BracketsIncreasing(order, pos, dims, [Exec(id)], {InstStmt(id)});
    case Sequential(dim, body) =>
      WalkAllIncreasing(order, pos, body);
      BracketsIncreasing(order, pos, [dim], EventsAll(pos, body), StmtsAll(body));
    case Threads(dims, body) =>
      WalkAllIncreasing(order, pos, body);
      BracketsIncreasing(order, pos, dims, EventsAll(pos, body), StmtsAll(body));
  }

  lemma {:induction false} WalkAllIncreasing(order: OrderTable, pos: nat -> nat, body: seq<Nest>)
    requires InducedAll(order, body)
    ensures Increasing(order, EventsAll(pos, body)) && Within(EventsAll(pos, body), StmtsAll(body))
  {
    if body != [] {
      WalkIncreasing(order, pos, body[0]);
      WalkAllIncreasing(order, pos, body[1..]);
      ConcatIncreasing(order, Events(pos, body[0]), EventsAll(pos, body[1..]), Stmts(body[0]), StmtsAll(body[1..]));
    }
  }

  /** No event is greater than one to its right. */
  ghost predicate Sorted(order: OrderTable, es: seq<Event>) {
    forall i, j :: 0 <= i < j < |es| ==> Cmp(order, es[i], es[j]).Some? && Cmp(order, es[i], es[j]) != Some(Greater)
  }

  lemma FirstIsLeast(order: OrderTable, sorted: seq<Event>, walk: seq<Event>)
    requires Increasing(order, walk) && Sorted(order, sorted) && multiset(sorted) == multiset(walk) && walk != []
    ensures sorted != [] && sorted[0] == walk[0]
  {
    assert walk[0] in multiset(sorted);
    var k :| 0 <= k < |sorted| && sorted[k] == walk[0];
    assert sorted[0] in multiset(walk);
    var m :| 0 <= m < |walk| && walk[m] == sorted[0];
    if m > 0 && k > 0 {
      assert false;
    }
  }

  lemma TailIncreasing(order: OrderTable, walk: seq<Event>)
    requires Increasing(order, walk) && walk != []
    ensures Increasing(order, walk[1..])
  {
    forall i, j | 0 <= i < j < |walk[1..]| ensures Ascends(order, walk[1..][i], walk[1..][j]) {
      assert Ascends(order, walk[i + 1], walk[j + 1]);
    }
  }

  /** However the events were ordered before, sorting them gives the increasing sequence. */
  lemma {:induction false} SortedIsUnique(order: OrderTable, sorted: seq<Event>, walk: seq<Event>)
    requires Increasing(order, walk) && Sorted(order, sorted) && multiset(sorted) == multiset(walk)
    ensures sorted == walk
  {
    assert |sorted| == |multiset(sorted)| == |multiset(walk)| == |walk|;
    if walk != [] {
      FirstIsLeast(order, sorted, walk);
      assert sorted == [walk[0]] + sorted[1..] && walk == [walk[0]] + walk[1..];
      assert multiset(sorted[1..]) == multiset(sorted) - multiset{walk[0]};
      assert multiset(walk[1..]) == multiset(walk) - multiset{walk[0]};
      TailIncreasing(order, walk);
      SortedIsUnique(order, sorted[1..], walk[1..]);
    }
  }
}
