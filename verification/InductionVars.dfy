/** Induction variables: the levels that keep them up to date as loops advance. */
module InductionVars {
  import opened Wrappers
  import opened Sequences

  datatype Kind = Block | Thread | Loop | Unroll | Vector

  /** A size known at compile time, or held by a kernel parameter. */
  datatype Size = Const(n: nat) | Sym(param: nat)

  /** An iteration dimension made of the fused IR dimensions `ids`. */
  datatype Dimension = Dimension(ids: seq<nat>, kind: Kind, size: Size)

  /** An IR dimension and the quantity added at each of its iterations. */
  datatype Increment = Increment(dim: nat, step: Size)

  datatype Space = Space(
    dims: seq<Dimension>,
    group: map<nat, nat>,            // the dimension each IR dimension was fused into
    outer: set<(nat, nat)>,          // the pairs whose first loop strictly encloses the second
    vars: seq<seq<Increment>>)
  {
    ghost predicate Valid() {
      WellFormed() && LoopsApart()
    }

    ghost predicate WellFormed() {
      && (forall g, k :: 0 <= g < |dims| && 0 <= k < |dims[g].ids| ==>
            dims[g].ids[k] in group && group[dims[g].ids[k]] == g)
      && (forall d :: d in group ==> group[d] < |dims| && d in dims[group[d]].ids)
      && (forall g :: 0 <= g < |dims| ==> NoRepeat(dims[g].ids))
      && (forall g :: 0 <= g < |dims| && dims[g].kind.Unroll? ==> dims[g].size.Const?)
      && (forall p :: p in outer ==> p.0 in group && p.1 in group && group[p.0] != group[p.1])
      && Transitive() && Congruent()
      && (forall v :: 0 <= v < |vars| ==> VarValid(vars[v]))
    }

    /** No two sequential dimensions of one variable are fused with each other. */
    ghost predicate LoopsApart() {
      forall v, i, j :: 0 <= v < |vars| && 0 <= i < j < |vars[v]| && IsMut(vars[v][i].dim) && IsMut(vars[v][j].dim) ==>
        Group(vars[v][i].dim) != Group(vars[v][j].dim)
    }

    ghost predicate Transitive() {
      forall p, q :: p in outer && q in outer && p.1 == q.0 ==> (p.0, q.1) in outer
    }

    /** Fused dimensions are nested alike. */
    ghost predicate Congruent() {
      && (forall p, d :: p in outer && d in group && group[d] == Group(p.0) ==> (d, p.1) in outer)
      && (forall p, d :: p in outer && d in group && group[d] == Group(p.1) ==> (p.0, d) in outer)
    }

    /** The dimensions of a variable are distinct, and those ordered together nested or fused. */
    ghost predicate VarValid(incs: seq<Increment>) {
      && (forall i :: 0 <= i < |incs| ==> incs[i].dim in group)
      && (forall i, j :: 0 <= i < j < |incs| ==> incs[i].dim != incs[j].dim)
      && Comparable(Select(incs, true))
      && Comparable(Select(incs, false))
    }

    /** The two dimensions are not in the wrong order. */
    ghost predicate InOrder(a: nat, b: nat) {
      (a, b) in outer || Group(a) == Group(b)
    }

    ghost predicate Comparable(incs: seq<Increment>) {
      forall i, j :: 0 <= i < j < |incs| ==> InOrder(incs[i].dim, incs[j].dim) || InOrder(incs[j].dim, incs[i].dim)
    }

    function Group(d: nat): nat {
      if d in group then group[d] else 0
    }

    function KindOf(d: nat): Kind {
      if d in group && group[d] < |dims| then dims[group[d]].kind else Vector
    }

    /** Levels of block and thread dimensions never change once computed. */
    predicate IsConst(d: nat) {
      KindOf(d).Block? || KindOf(d).Thread?
    }

    predicate IsMut(d: nat) {
      KindOf(d).Loop? || KindOf(d).Unroll?
    }

    function Select(incs: seq<Increment>, constant: bool): (r: seq<Increment>)
      ensures forall k :: 0 <= k < |r| ==> r[k] in incs && (if constant then IsConst(r[k].dim) else IsMut(r[k].dim))
    {
      if incs == [] then []
      else
        var rest := Select(incs[..|incs| - 1], constant);
        var d := incs[|incs| - 1].dim;
        if if constant then IsConst(d) else IsMut(d) then rest + [incs[|incs| - 1]] else rest
    }

    /** `inc` placed in a list sorted from the outermost dimension to the innermost one. */
    function InsertSorted(sorted: seq<Increment>, inc: Increment): seq<Increment> {
      if sorted == [] || (inc.dim, sorted[|sorted| - 1].dim) !in outer then sorted + [inc]
      else InsertSorted(sorted[..|sorted| - 1], inc) + [sorted[|sorted| - 1]]
    }

    function SortOuterFirst(incs: seq<Increment>): seq<Increment> {
      if incs == [] then [] else InsertSorted(SortOuterFirst(incs[..|incs| - 1]), incs[|incs| - 1])
    }

    function ConstLevels(v: nat): seq<Increment>
      requires v < |vars|
    {
      SortOuterFirst(Select(vars[v], true))
    }

    function MutLevels(v: nat): seq<Increment>
      requires v < |vars|
    {
      SortOuterFirst(Select(vars[v], false))
    }
  }

  ghost predicate NoRepeat(ids: seq<nat>) {
    forall i, j :: 0 <= i < j < |ids| ==> ids[i] != ids[j]
  }

  /** The sum of the level over `outer` and of the base operand, when present. */
  datatype Value = Value(outer: Option<nat>, operand: bool) {
    function NumComponents(): nat {
      (if outer.Some? then 1 else 0) + (if operand then 1 else 0)
    }
  }

  /** A register updated along the dimension of `increment`, initialised with `base`. */
  datatype Level = Level(v: nat, increment: Option<Increment>, base: Value)

  // ----- The levels of one variable -----

  function PrecomputedOf(space: Space, v: nat, n: nat): (r: seq<Level>)
    requires v < |space.vars| && n <= |space.ConstLevels(v)|
    ensures |r| == n
  {
    var consts := space.ConstLevels(v);
    seq(n, j requires 0 <= j < n =>
      Level(v, Some(consts[j]), Value(if j == 0 then None else Some(consts[j - 1].dim), false)))
  }

  function LastDim(incs: seq<Increment>): Option<nat> {
    if incs == [] then None else Some(incs[|incs| - 1].dim)
  }

  function MutLevel(space: Space, v: nat, j: nat): Level
    requires v < |space.vars| && j < |space.MutLevels(v)|
  {
    var muts := space.MutLevels(v);
    Level(v, Some(muts[j]),
          if j == 0 then Value(LastDim(space.ConstLevels(v)), true) else Value(Some(muts[j - 1].dim), false))
  }

  /** The value needs two registers and no loop level adds them: it has a level of its own. */
  predicate ComputedElsewhere(space: Space, v: nat)
    requires v < |space.vars|
  {
    space.MutLevels(v) == [] && space.ConstLevels(v) != []
  }

  function ElsewhereLevel(space: Space, v: nat): Level
    requires v < |space.vars|
  {
    Level(v, None, Value(LastDim(space.ConstLevels(v)), true))
  }

  /** What an instruction names when it uses the variable. */
  function FinalValue(space: Space, v: nat): Value
    requires v < |space.vars|
  {
    if space.MutLevels(v) != [] then Value(LastDim(space.MutLevels(v)), false)
    else if space.ConstLevels(v) != [] then Value(None, false)
    else Value(None, true)
  }

  // ----- The levels of all the variables -----

  function FinalValues(space: Space, n: nat): (r: seq<Value>)
    requires n <= |space.vars|
    ensures |r| == n && forall v :: 0 <= v < n ==> r[v] == FinalValue(space, v)
  {
    if n == 0 then [] else FinalValues(space, n - 1) + [FinalValue(space, n - 1)]
  }

  /** A level and the IR dimension it is computed along. */
  type Table = seq<(nat, Level)>

  function MutTable(space: Space, v: nat, n: nat): (r: Table)
    requires v < |space.vars| && n <= |space.MutLevels(v)|
    ensures |r| == n
  {
    seq(n, j requires 0 <= j < n => (space.MutLevels(v)[j].dim, MutLevel(space, v, j)))
  }

  function VarTable(space: Space, v: nat): (r: Table)
    requires v < |space.vars|
    ensures forall k :: 0 <= k < |r| ==> r[k].1.v == v
  {
    if ComputedElsewhere(space, v) then [(LastDim(space.ConstLevels(v)).value, ElsewhereLevel(space, v))]
    else MutTable(space, v, |space.MutLevels(v)|)
  }

  function Tables(space: Space, n: nat): (r: seq<Table>)
    requires n <= |space.vars|
    ensures |r| == n && forall v :: 0 <= v < n ==> r[v] == VarTable(space, v)
  {
    seq(n, v requires 0 <= v < n => VarTable(space, v))
  }

  function LevelTable(space: Space, n: nat): Table
    requires n <= |space.vars|
  {
    Flatten(Tables(space, n))
  }

  function Precomputed(space: Space, n: nat): seq<Level>
    requires n <= |space.vars|
  {
    Flatten(PrecomputedParts(space, n))
  }

  function PrecomputedParts(space: Space, n: nat): (r: seq<seq<Level>>)
    requires n <= |space.vars|
    ensures |r| == n && forall v :: 0 <= v < n ==> r[v] == PrecomputedOf(space, v, |space.ConstLevels(v)|)
  {
    seq(n, v requires 0 <= v < n => PrecomputedOf(space, v, |space.ConstLevels(v)|))
  }

  /** The levels a table holds for a dimension, in insertion order. */
  function LevelsFor(table: Table, d: nat): seq<Level> {
    if table == [] then []
    else
      var rest := LevelsFor(table[..|table| - 1], d);
      if table[|table| - 1].0 == d then rest + [table[|table| - 1].1] else rest
  }

  /** The levels of the first `n` of some fused dimensions. */
  function LevelsOfDims(table: Table, ids: seq<nat>): seq<Level> {
    if ids == [] then []
    else LevelsOfDims(table, ids[..|ids| - 1]) + LevelsFor(table, ids[|ids| - 1])
  }

  // ----- Registration -----

  class InductionVarValue {
    var outerLevel: Option<nat>
    var operand: bool

    /** The base operand alone. */
    constructor ()
      ensures outerLevel == None && operand
    {
      outerLevel, operand := None, true;
    }

    /** Hands the current value over to a level and points to that level instead. */
    method ApplyLevel(level: nat, useOperand: bool) returns (taken: Value)
      modifies this
      ensures outerLevel == Some(level)
      ensures taken == Value(old(outerLevel), useOperand && old(operand))
      ensures operand == (old(operand) && !useOperand)
    {
      taken := Value(outerLevel, useOperand && operand);
      outerLevel := Some(level);
      operand := operand && !useOperand;
    }
  }

  /** The levels computed once per thread and those updated by loops, both from outer to inner. */
  method GetIndVarLevels(space: Space, v: nat) returns (constLevels: seq<Increment>, mutLevels: seq<Increment>)
    requires v < |space.vars|
    ensures constLevels == space.ConstLevels(v) && mutLevels == space.MutLevels(v)
  {
    constLevels, mutLevels := [], [];
    var incs := space.vars[v];
    for i := 0 to |incs|
      invariant constLevels == space.Select(incs[..i], true)
      invariant mutLevels == space.Select(incs[..i], false)
    {
      assert incs[..i + 1][..i] == incs[..i];
      match space.KindOf(incs[i].dim) {
        case Vector =>
        case Loop => mutLevels := mutLevels + [incs[i]];
        case Unroll => mutLevels := mutLevels + [incs[i]];
        case Block => constLevels := constLevels + [incs[i]];
        case Thread => constLevels := constLevels + [incs[i]];
      }
    }
    assert incs[..|incs|] == incs;
    constLevels, mutLevels := space.SortOuterFirst(constLevels), space.SortOuterFirst(mutLevels);
  }

  lemma ValuesGrow(space: Space, v: nat)
    requires v < |space.vars|
    ensures FinalValues(space, v + 1) == FinalValues(space, v) + [FinalValue(space, v)]
  {
  }

  lemma PrecomputedGrow(space: Space, v: nat)
    requires v < |space.vars|
    ensures Precomputed(space, v + 1) == Precomputed(space, v) + PrecomputedOf(space, v, |space.ConstLevels(v)|)
  {
    assert PrecomputedParts(space, v + 1)[..v] == PrecomputedParts(space, v);
  }

  lemma TableGrows(space: Space, v: nat)
    requires v < |space.vars|
    ensures LevelTable(space, v + 1) == LevelTable(space, v) + VarTable(space, v)
  {
    assert Tables(space, v + 1)[..v] == Tables(space, v);
  }

  method RegisterInductionVars(space: Space)
    returns (values: seq<Value>, precomputed: seq<Level>, table: Table)
    ensures values == FinalValues(space, |space.vars|)
    ensures precomputed == Precomputed(space, |space.vars|)
    ensures table == LevelTable(space, |space.vars|)
  {
    values, precomputed, table := [], [], [];
    for v := 0 to |space.vars|
      invariant values == FinalValues(space, v)
      invariant precomputed == Precomputed(space, v)
      invariant table == LevelTable(space, v)
    {
      var value, levels, entries := RegisterInductionVar(space, v);
      ValuesGrow(space, v);
      PrecomputedGrow(space, v);
      TableGrows(space, v);
      values, precomputed, table := values + [value], precomputed + levels, table + entries;
    }
  }

  method RegisterInductionVar(space: Space, v: nat) returns (value: Value, levels: seq<Level>, entries: Table)
    requires v < |space.vars|
    ensures value == FinalValue(space, v)
    ensures levels == PrecomputedOf(space, v, |space.ConstLevels(v)|)
    ensures entries == VarTable(space, v)
  {
    var constLevels, mutLevels := GetIndVarLevels(space, v);
    var outerValue := new InductionVarValue();
    levels, entries := [], [];
    for j := 0 to |constLevels|
      invariant levels == PrecomputedOf(space, v, j)
      invariant outerValue.outerLevel == LastDim(constLevels[..j]) && outerValue.operand
    {
      var base := outerValue.ApplyLevel(constLevels[j].dim, false);
      levels := levels + [Level(v, Some(constLevels[j]), base)];
    }
    assert constLevels[..|constLevels|] == constLevels;
    for j := 0 to |mutLevels|
      invariant entries == MutTable(space, v, j)
      invariant outerValue.outerLevel == if j == 0 then LastDim(constLevels) else LastDim(mutLevels[..j])
      invariant outerValue.operand == (j == 0)
    {
      var base := outerValue.ApplyLevel(mutLevels[j].dim, true);
      entries := entries + [(mutLevels[j].dim, Level(v, Some(mutLevels[j]), base))];
    }
    assert mutLevels[..|mutLevels|] == mutLevels;
    value := Value(outerValue.outerLevel, outerValue.operand);
    if value.NumComponents() > 1 {
      // The value cannot be used as an operand: a level without increment adds its components.
      entries := entries + [(levels[|levels| - 1].increment.value.dim, Level(v, None, value))];
      value := Value(None, false);
    }
  }
}
