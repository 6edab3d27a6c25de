/** What the registered levels are: sorted, complete and without repetition. */
module InductionLevels {
  import opened Wrappers
  import opened Sequences
  import opened InductionVars

  // ----- Sorting -----

  /** Outer dimensions come first, fused ones in any order. */
  ghost predicate Ordered(space: Space, incs: seq<Increment>) {
    forall i, j :: 0 <= i < j < |incs| ==> space.InOrder(incs[i].dim, incs[j].dim)
  }

  lemma {:induction false} InsertSortedOk(space: Space, sorted: seq<Increment>, inc: Increment)
    requires space.Transitive() && space.Congruent() && Ordered(space, sorted)
    requires inc.dim in space.group && forall i :: 0 <= i < |sorted| ==> sorted[i].dim in space.group
    requires forall i :: 0 <= i < |sorted| ==> space.InOrder(sorted[i].dim, inc.dim) || space.InOrder(inc.dim, sorted[i].dim)
    ensures multiset(space.InsertSorted(sorted, inc)) == multiset(sorted) + multiset{inc}
    ensures Ordered(space, space.InsertSorted(sorted, inc))
  {
    if sorted != [] {
      var k := |sorted| - 1;
      assert sorted == sorted[..k] + [sorted[k]];
      if (inc.dim, sorted[k].dim) !in space.outer {
        AppendOrdered(space, sorted, inc);
      } else {
        assert sorted[..k][..] == sorted[..k];
        InsertSortedOk(space, sorted[..k], inc);
        var r := space.InsertSorted(sorted[..k], inc);
        forall i | 0 <= i < |r| ensures space.InOrder(r[i].dim, sorted[k].dim) {
          assert r[i] in multiset(r);
          if r[i] != inc {
            assert r[i] in sorted[..k];
          }
        }
        AppendLast(space, r, sorted[k]);
      }
    }
  }

  lemma AppendLast(space: Space, sorted: seq<Increment>, inc: Increment)
    requires Ordered(space, sorted)
    requires forall i :: 0 <= i < |sorted| ==> space.InOrder(sorted[i].dim, inc.dim)
    ensures Ordered(space, sorted + [inc])
  {
  }

  lemma AppendOrdered(space: Space, sorted: seq<Increment>, inc: Increment)
    requires space.Transitive() && space.Congruent() && Ordered(space, sorted) && sorted != []
    requires inc.dim in space.group && forall i :: 0 <= i < |sorted| ==> sorted[i].dim in space.group
    requires space.InOrder(sorted[|sorted| - 1].dim, inc.dim)
    ensures Ordered(space, sorted + [inc])
  {
    var k := |sorted| - 1;
    forall i | 0 <= i <= k ensures space.InOrder(sorted[i].dim, inc.dim) {
      if i < k { OrderTrans(space, sorted[i].dim, sorted[k].dim, inc.dim); }
    }
    AppendLast(space, sorted, inc);
  }

  lemma OrderTrans(space: Space, a: nat, b: nat, c: nat)
    requires space.Transitive() && space.Congruent() && a in space.group && b in space.group && c in space.group
    requires space.InOrder(a, b) && space.InOrder(b, c)
    ensures space.InOrder(a, c)
  {
    var p, q := (a, b), (b, c);
    if q in space.outer {
      assert p in space.outer || (a, q.1) in space.outer;
    } else if p in space.outer {
      assert (p.0, c) in space.outer;
    }
  }

  lemma {:induction false} SortOk(space: Space, incs: seq<Increment>)
    requires space.Transitive() && space.Congruent() && space.Comparable(incs)
    requires forall i :: 0 <= i < |incs| ==> incs[i].dim in space.group
    ensures multiset(space.SortOuterFirst(incs)) == multiset(incs)
    ensures Ordered(space, space.SortOuterFirst(incs))
  {
    if incs != [] {
      var k := |incs| - 1;
      assert incs == incs[..k] + [incs[k]];
      SortOk(space, incs[..k]);
      var sorted := space.SortOuterFirst(incs[..k]);
      forall i | 0 <= i < |sorted|
        ensures sorted[i].dim in space.group
        ensures space.InOrder(sorted[i].dim, incs[k].dim) || space.InOrder(incs[k].dim, sorted[i].dim)
      {
        assert sorted[i] in multiset(sorted);
        var j :| 0 <= j < k && incs[..k][j] == sorted[i];
      }
      InsertSortedOk(space, sorted, incs[k]);
    }
  }

  ghost predicate DistinctDims(incs: seq<Increment>) {
    forall i, j :: 0 <= i < j < |incs| ==> incs[i].dim != incs[j].dim
  }

  lemma {:induction false} InsertMembers(space: Space, sorted: seq<Increment>, inc: Increment, e: Increment)
    ensures e in space.InsertSorted(sorted, inc) <==> e in sorted || e == inc
  {
    if sorted != [] {
      InsertMembers(space, sorted[..|sorted| - 1], inc, e);
    }
  }

  lemma {:induction false} InsertDistinct(space: Space, sorted: seq<Increment>, inc: Increment)
    requires DistinctDims(sorted) && forall i :: 0 <= i < |sorted| ==> sorted[i].dim != inc.dim
    ensures DistinctDims(space.InsertSorted(sorted, inc))
  {
    if sorted != [] && (inc.dim, sorted[|sorted| - 1].dim) in space.outer {
      var k := |sorted| - 1;
      InsertDistinct(space, sorted[..k], inc);
      var r := space.InsertSorted(sorted[..k], inc);
      forall i | 0 <= i < |r| ensures r[i].dim != sorted[k].dim {
        InsertMembers(space, sorted[..k], inc, r[i]);
      }
    }
  }

  lemma {:induction false} SortDistinct(space: Space, incs: seq<Increment>)
    requires DistinctDims(incs)
    ensures DistinctDims(space.SortOuterFirst(incs))
    ensures forall e :: e in space.SortOuterFirst(incs) <==> e in incs
  {
    if incs != [] {
      var k := |incs| - 1;
      SortDistinct(space, incs[..k]);
      var sorted := space.SortOuterFirst(incs[..k]);
      forall i | 0 <= i < |sorted| ensures sorted[i].dim != incs[k].dim {
        assert sorted[i] in incs[..k];
      }
      InsertDistinct(space, sorted, incs[k]);
      forall e ensures e in space.SortOuterFirst(incs) <==> e in incs {
        InsertMembers(space, sorted, incs[k], e);
      }
    }
  }

  lemma {:induction false} SelectDistinct(space: Space, incs: seq<Increment>, constant: bool)
    requires DistinctDims(incs)
    ensures DistinctDims(space.Select(incs, constant))
  {
    if incs != [] {
      SelectDistinct(space, incs[..|incs| - 1], constant);
    }
  }

  /** The sorted levels of a variable: of the right kind, ordered and of distinct dimensions. */
  lemma SortedLevels(space: Space, v: nat, constant: bool)
    requires space.WellFormed() && v < |space.vars|
    ensures
      var levels := space.SortOuterFirst(space.Select(space.vars[v], constant));
      && Ordered(space, levels)
      && multiset(levels) == multiset(space.Select(space.vars[v], constant))
      && (forall j :: 0 <= j < |levels| ==>
            (if constant then space.IsConst(levels[j].dim) else space.IsMut(levels[j].dim)) && levels[j].dim in space.group)
      && DistinctDims(levels)
  {
    assert space.VarValid(space.vars[v]);
    var selected := space.Select(space.vars[v], constant);
    SelectDistinct(space, space.vars[v], constant);
    SortDistinct(space, selected);
    SortOk(space, selected);
    var levels := space.SortOuterFirst(selected);
    forall j | 0 <= j < |levels|
      ensures (if constant then space.IsConst(levels[j].dim) else space.IsMut(levels[j].dim)) && levels[j].dim in space.group
    {
      assert levels[j] in selected;
    }
  }

  /** Without fused loops, the sequential levels are strictly nested. */
  lemma StrictLevels(space: Space, v: nat)
    requires space.Valid() && v < |space.vars|
    ensures
      var levels := space.MutLevels(v);
      forall i, j :: 0 <= i < j < |levels| ==>
        (levels[i].dim, levels[j].dim) in space.outer && space.group[levels[i].dim] != space.group[levels[j].dim]
  {
    SortedLevels(space, v, false);
    var levels := space.MutLevels(v);
    forall i, j | 0 <= i < j < |levels|
      ensures (levels[i].dim, levels[j].dim) in space.outer && space.group[levels[i].dim] != space.group[levels[j].dim]
    {
      assert levels[i] in multiset(levels) && levels[j] in multiset(levels);
      assert levels[i] in space.vars[v] && levels[j] in space.vars[v];
      GroupsApart(space, v, levels[i], levels[j]);
    }
  }

  lemma GroupsApart(space: Space, v: nat, a: Increment, b: Increment)
    requires space.LoopsApart() && v < |space.vars| && a in space.vars[v] && b in space.vars[v] && a.dim != b.dim
    requires space.IsMut(a.dim) && space.IsMut(b.dim)
    ensures space.Group(a.dim) != space.Group(b.dim)
  {
  }

  // ----- Tables -----

  lemma {:induction false} LevelsForContains(table: Table, d: nat, level: Level)
    ensures level in LevelsFor(table, d) <==> (d, level) in table
  {
    if table != [] {
      var k := |table| - 1;
      LevelsForContains(table[..k], d, level);
      assert table == table[..k] + [table[k]];
    }
  }

  /** The entry of a level tells its variable, hence a table without repetition. */
  ghost predicate Keyed(space: Space, e: (nat, Level)) {
    && e.1.v < |space.vars|
    && e in VarTable(space, e.1.v)
  }

  ghost predicate DistinctMut(space: Space, v: nat)
    requires v < |space.vars|
  {
    DistinctDims(space.MutLevels(v))
  }

  lemma VarTableNoRepeat(space: Space, v: nat)
    requires v < |space.vars| && DistinctMut(space, v)
    ensures NoRepeatIn(VarTable(space, v))
  {
  }

  lemma EntryKeyed(space: Space, e: (nat, Level))
    ensures e in LevelTable(space, |space.vars|) <==> Keyed(space, e)
  {
    var tables := Tables(space, |space.vars|);
    InFlatten(tables, e);
    if v :| 0 <= v < |tables| && e in tables[v] {
      VarOfEntry(space, v, e);
    }
    if Keyed(space, e) {
      assert e in tables[e.1.v];
    }
  }

  lemma VarOfEntry(space: Space, v: nat, e: (nat, Level))
    requires v < |space.vars| && e in VarTable(space, v)
    ensures e.1.v == v
  {
  }

  lemma LevelTableNoRepeat(space: Space)
    requires forall v :: 0 <= v < |space.vars| ==> DistinctMut(space, v)
    ensures NoRepeatIn(LevelTable(space, |space.vars|))
  {
    var tables := Tables(space, |space.vars|);
    forall v | 0 <= v < |tables| ensures NoRepeatIn(tables[v]) {
      VarTableNoRepeat(space, v);
    }
    forall v, e: (nat, Level) | 0 <= v < |tables| && e in tables[v] ensures e.1.v == v {
      VarOfEntry(space, v, e);
    }
    FlattenNoRepeat(tables);
  }

  lemma {:induction false} LevelsForNoRepeat(table: Table, d: nat)
    requires NoRepeatIn(table)
    ensures NoRepeatIn(LevelsFor(table, d))
  {
    if table != [] {
      var k := |table| - 1;
      LevelsForNoRepeat(table[..k], d);
      LevelsForContains(table[..k], d, table[k].1);
      assert table[k] !in table[..k];
      assert (table[k].0, table[k].1) == table[k];
    }
  }

  lemma {:induction false} LevelsOfDimsContains(table: Table, ids: seq<nat>, level: Level)
    ensures level in LevelsOfDims(table, ids) <==> exists k :: 0 <= k < |ids| && (ids[k], level) in table
  {
    if ids != [] {
      var n := |ids| - 1;
      LevelsOfDimsContains(table, ids[..n], level);
      LevelsForContains(table, ids[n], level);
      if k :| 0 <= k < n && (ids[..n][k], level) in table {
        assert (ids[k], level) in table;
      }
      if k :| 0 <= k < |ids| && (ids[k], level) in table {
        if k < n { assert ids[..n][k] == ids[k]; }
      }
    }
  }

  /** A level is registered along the dimension of its increment. */
  ghost predicate Located(table: Table) {
    forall e, f :: e in table && f in table && e.1 == f.1 ==> e.0 == f.0
  }

  lemma {:induction false} LevelsOfDimsNoRepeat(table: Table, ids: seq<nat>)
    requires NoRepeatIn(table) && Located(table) && NoRepeat(ids)
    ensures NoRepeatIn(LevelsOfDims(table, ids))
  {
    if ids != [] {
      var n := |ids| - 1;
      LevelsOfDimsNoRepeat(table, ids[..n]);
      LevelsForNoRepeat(table, ids[n]);
      var before, added := LevelsOfDims(table, ids[..n]), LevelsFor(table, ids[n]);
      forall i, j | 0 <= i < |before| && 0 <= j < |added| ensures before[i] != added[j] {
        LevelsOfDimsContains(table, ids[..n], before[i]);
        LevelsForContains(table, ids[n], added[j]);
        var k :| 0 <= k < n && (ids[..n][k], before[i]) in table;
        assert ids[k] != ids[n];
      }
    }
  }

  lemma AllDistinctMut(space: Space)
    requires space.WellFormed()
    ensures forall v :: 0 <= v < |space.vars| ==> DistinctMut(space, v)
  {
    forall v | 0 <= v < |space.vars| ensures DistinctMut(space, v) {
      SortedLevels(space, v, false);
    }
  }

  lemma LevelTableLocated(space: Space)
    requires forall v :: 0 <= v < |space.vars| ==> DistinctMut(space, v)
    ensures Located(LevelTable(space, |space.vars|))
  {
    forall e, f | e in LevelTable(space, |space.vars|) && f in LevelTable(space, |space.vars|) && e.1 == f.1 ensures e.0 == f.0 {
      EntryKeyed(space, e);
      EntryKeyed(space, f);
      SameEntry(space, e, f);
    }
  }

  lemma SameEntry(space: Space, e: (nat, Level), f: (nat, Level))
    requires e.1 == f.1 && e.1.v < |space.vars| && e in VarTable(space, e.1.v) && f in VarTable(space, e.1.v)
    ensures e.0 == f.0
  {
  }

  /** The entry of the level of the `j`-th sequential dimension of a variable. */
  lemma MutEntry(space: Space, v: nat, e: (nat, Level))
    requires space.WellFormed() && v < |space.vars|
    ensures e in VarTable(space, v) && e.1.increment.Some? <==>
            exists j :: 0 <= j < |space.MutLevels(v)| && e == (space.MutLevels(v)[j].dim, MutLevel(space, v, j))
  {
    if space.MutLevels(v) != [] {
      assert VarTable(space, v) == MutTable(space, v, |space.MutLevels(v)|);
      if j :| 0 <= j < |space.MutLevels(v)| && e == (space.MutLevels(v)[j].dim, MutLevel(space, v, j)) {
        assert VarTable(space, v)[j] == e;
      }
    }
  }

  predicate InGroup(space: Space, d: nat, g: nat) {
    d in space.group && space.group[d] == g
  }

  /** The levels of a loop are those of the sequential dimensions fused into it, once each. */
  lemma LoopLevelsComplete(space: Space, g: nat)
    requires space.WellFormed() && g < |space.dims| && (space.dims[g].kind.Loop? || space.dims[g].kind.Unroll?)
    ensures
      var levels := LevelsOfDims(LevelTable(space, |space.vars|), space.dims[g].ids);
      && NoRepeatIn(levels)
      && (forall k :: 0 <= k < |levels| ==> IsLevelOf(space, g, levels[k]))
      && (forall v, j ::
            0 <= v < |space.vars| && 0 <= j < |space.MutLevels(v)| && InGroup(space, space.MutLevels(v)[j].dim, g) ==>
            MutLevel(space, v, j) in levels)
  {
    var n := |space.vars|;
    var table, ids := LevelTable(space, n), space.dims[g].ids;
    AllDistinctMut(space);
    LevelTableNoRepeat(space);
    LevelTableLocated(space);
    LevelsOfDimsNoRepeat(table, ids);
    var levels := LevelsOfDims(table, ids);
    forall k | 0 <= k < |levels| ensures IsLevelOf(space, g, levels[k]) {
      LevelsOfDimsContains(table, ids, levels[k]);
      var a :| 0 <= a < |ids| && (ids[a], levels[k]) in table;
      var e := (ids[a], levels[k]);
      EntryKeyed(space, e);
      EntryOfLoop(space, g, e);
    }
    forall v, j | 0 <= v < |space.vars| && 0 <= j < |space.MutLevels(v)| &&
                  InGroup(space, space.MutLevels(v)[j].dim, g)
      ensures MutLevel(space, v, j) in levels
    {
      var d := space.MutLevels(v)[j].dim;
      MutEntry(space, v, (d, MutLevel(space, v, j)));
      EntryKeyed(space, (d, MutLevel(space, v, j)));
      LevelsOfDimsContains(table, ids, MutLevel(space, v, j));
      var a :| 0 <= a < |ids| && ids[a] == d;
      assert (ids[a], MutLevel(space, v, j)) in table;
    }
  }

  ghost predicate IsLevelOf(space: Space, g: nat, level: Level) {
    && level.v < |space.vars|
    && exists j :: 0 <= j < |space.MutLevels(level.v)| && level == MutLevel(space, level.v, j) &&
         InGroup(space, space.MutLevels(level.v)[j].dim, g)
  }

  lemma EntryOfLoop(space: Space, g: nat, e: (nat, Level))
    requires space.WellFormed() && g < |space.dims| && (space.dims[g].kind.Loop? || space.dims[g].kind.Unroll?)
    requires e.0 in space.dims[g].ids && Keyed(space, e)
    ensures IsLevelOf(space, g, e.1)
  {
    var a :| 0 <= a < |space.dims[g].ids| && space.dims[g].ids[a] == e.0;
    assert InGroup(space, e.0, g);
    SortedLevels(space, e.1.v, true);
    SequentialEntry(space, e.1.v, g, e);
  }

  lemma SequentialEntry(space: Space, v: nat, g: nat, e: (nat, Level))
    requires v < |space.vars| && space.IsMut(e.0) && InGroup(space, e.0, g) && e in VarTable(space, v) && e.1.v == v
    requires forall j :: 0 <= j < |space.ConstLevels(v)| ==> space.IsConst(space.ConstLevels(v)[j].dim)
    ensures IsLevelOf(space, g, e.1)
  {
    var k :| 0 <= k < |VarTable(space, v)| && VarTable(space, v)[k] == e;
    if !ComputedElsewhere(space, v) {
      assert e.1 == MutLevel(space, v, k) && e.0 == space.MutLevels(v)[k].dim;
    }
  }

  /** Along a block or thread dimension lie the levels computed once its index is known. */
  lemma EntryOfParallel(space: Space, e: (nat, Level))
    requires space.WellFormed() && space.IsConst(e.0) && Keyed(space, e)
    ensures ComputedElsewhere(space, e.1.v)
    ensures e == (LastDim(space.ConstLevels(e.1.v)).value, ElsewhereLevel(space, e.1.v))
  {
    SortedLevels(space, e.1.v, false);
    ParallelEntry(space, e.1.v, e);
  }

  lemma ParallelEntry(space: Space, v: nat, e: (nat, Level))
    requires v < |space.vars| && space.IsConst(e.0) && e in VarTable(space, v)
    requires forall j :: 0 <= j < |space.MutLevels(v)| ==> space.IsMut(space.MutLevels(v)[j].dim)
    ensures ComputedElsewhere(space, v) && e == (LastDim(space.ConstLevels(v)).value, ElsewhereLevel(space, v))
  {
  }
}
