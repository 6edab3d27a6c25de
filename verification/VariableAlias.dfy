/** Variables that share the registers of other variables. */
module VariableAliases {
  import opened Wrappers
  import opened Sequences

  /** An alias of `other`: the dimensions of `other` mapped to those of the alias, and back. */
  datatype Alias = Alias(other: nat, dimMapping: map<nat, Option<nat>>, reverse: map<nat, nat>) {
    /** The dimension of the other variable that corresponds to `dim`. */
    function Pull(dim: nat): nat {
      if dim in reverse then reverse[dim] else dim
    }
  }

  type Aliases = map<nat, Option<Alias>>

  datatype Sorted = Sorted(id: nat, alias: Option<Alias>)

  /** Every alias refers to a variable, and following them ends. */
  ghost predicate Acyclic(aliases: Aliases, rank: nat -> nat) {
    forall v :: v in aliases && aliases[v].Some? ==> aliases[v].value.other in aliases && rank(aliases[v].value.other) < rank(v)
  }

  function Ids(sorted: seq<Sorted>): set<nat> {
    if sorted == [] then {} else Ids(sorted[..|sorted| - 1]) + {sorted[|sorted| - 1].id}
  }

  /** The variable an alias refers to. */
  function Other(alias: Option<Alias>): Option<nat> {
    if alias.None? then None else Some(alias.value.other)
  }

  /** Each variable comes once, with its alias, after the variable it aliases with. */
  ghost predicate InOrder(aliases: Aliases, sorted: seq<Sorted>) {
    sorted != [] ==>
      var before, last := sorted[..|sorted| - 1], sorted[|sorted| - 1];
      && InOrder(aliases, before)
      && last.id in aliases && aliases[last.id] == last.alias && last.id !in Ids(before)
      && (last.alias.Some? ==> last.alias.value.other in Ids(before))
  }

  /** A chain of distinct variables, each aliasing with the next one, and the last with `next`. */
  ghost predicate IsChain(aliases: Aliases, chain: seq<Sorted>, next: Option<nat>) {
    chain != [] ==>
      var before, last := chain[..|chain| - 1], chain[|chain| - 1];
      && IsChain(aliases, before, Some(last.id))
      && last.id in aliases && aliases[last.id] == last.alias && last.id !in Ids(before)
      && next == Other(last.alias)
  }

  function Reverse(s: seq<Sorted>): seq<Sorted> {
    if s == [] then [] else [s[|s| - 1]] + Reverse(s[..|s| - 1])
  }

  lemma AppendOne(aliases: Aliases, sorted: seq<Sorted>, x: Sorted)
    requires InOrder(aliases, sorted) && x.id in aliases && aliases[x.id] == x.alias && x.id !in Ids(sorted)
    requires x.alias.Some? ==> x.alias.value.other in Ids(sorted)
    ensures InOrder(aliases, sorted + [x]) && Ids(sorted + [x]) == Ids(sorted) + {x.id}
  {
    assert (sorted + [x])[..|sorted|] == sorted;
  }

  /** A chain that stops at sorted variables, reversed, extends the order. */
  lemma {:induction false} AppendChain(aliases: Aliases, sorted: seq<Sorted>, chain: seq<Sorted>, next: Option<nat>)
    requires InOrder(aliases, sorted) && IsChain(aliases, chain, next) && Ids(chain) !! Ids(sorted)
    requires chain != [] && next.Some? ==> next.value in Ids(sorted)
    ensures InOrder(aliases, sorted + Reverse(chain)) && Ids(sorted + Reverse(chain)) == Ids(sorted) + Ids(chain)
    decreases |chain|
  {
    if chain == [] {
      assert sorted + Reverse(chain) == sorted;
    } else {
      var before, last := chain[..|chain| - 1], chain[|chain| - 1];
      var more := sorted + [last];
      LastOfChain(aliases, chain, next);
      AppendOne(aliases, sorted, last);
      AppendChain(aliases, more, before, Some(last.id));
      Regroup(sorted, last, Reverse(before));
    }
  }

  lemma LastOfChain(aliases: Aliases, chain: seq<Sorted>, next: Option<nat>)
    requires chain != [] && IsChain(aliases, chain, next)
    ensures
      var before, last := chain[..|chain| - 1], chain[|chain| - 1];
      && IsChain(aliases, before, Some(last.id)) && last.id !in Ids(before) && Ids(chain) == Ids(before) + {last.id}
      && last.id in aliases && aliases[last.id] == last.alias && next == Other(last.alias)
      && Reverse(chain) == [last] + Reverse(before)
  {
  }

  /** The variables not sorted yet. */
  ghost predicate Left(aliases: Aliases, left: Aliases, sorted: set<nat>) {
    left.Keys == aliases.Keys - sorted && forall v :: v in left ==> left[v] == aliases[v]
  }

  /** Walks the chain of aliases from `start` until a sorted variable, taking the variables out of `left`. */
  method TakeChain(aliases: Aliases, start: nat, left: Aliases, ghost sorted: set<nat>, ghost rank: nat -> nat)
    returns (chain: seq<Sorted>, left': Aliases, ghost next: Option<nat>)
    requires Acyclic(aliases, rank) && start in aliases && Left(aliases, left, sorted)
    ensures IsChain(aliases, chain, next) && Ids(chain) !! sorted
    ensures chain != [] && next.Some? ==> next.value in sorted
    ensures start in Ids(chain) + sorted && Left(aliases, left', sorted + Ids(chain))
  {
    chain, left' := [], left;
    var current := Some(start);
    while current.Some? && current.value in left'
      invariant IsChain(aliases, chain, current) && Ids(chain) !! sorted
      invariant current.Some? ==> current.value in aliases
      invariant forall i :: i in Ids(chain) && current.Some? ==> rank(current.value) < rank(i)
      invariant if chain == [] then current == Some(start) else start in Ids(chain)
      invariant Left(aliases, left', sorted + Ids(chain))
      decreases left'.Keys
    {
      var x := Sorted(current.value, left'[current.value]);
      assert (chain + [x])[..|chain|] == chain;
      left' := left' - {x.id};
      current := Other(x.alias);
      chain := chain + [x];
    }
    next := current;
  }

  /** Sorts variables so that each comes after the one it aliases with. */
  method SortVariables(aliases: Aliases, variables: seq<nat>, ghost rank: nat -> nat) returns (sorted: seq<Sorted>)
    requires Acyclic(aliases, rank) && forall v :: v in variables <==> v in aliases
    ensures InOrder(aliases, sorted) && Ids(sorted) == aliases.Keys
  {
    sorted := [];
    var left := aliases;
    for k := 0 to |variables|
      invariant InOrder(aliases, sorted) && Left(aliases, left, Ids(sorted))
      invariant forall j :: 0 <= j < k ==> variables[j] in Ids(sorted)
    {
      var chain;
      ghost var next;
      chain, left, next := TakeChain(aliases, variables[k], left, Ids(sorted), rank);
      AppendChain(aliases, sorted, chain, next);
      sorted := sorted + Reverse(chain);
    }
    SortedAre(aliases, sorted);
    assert forall v :: v in aliases ==> v in variables;
  }

  lemma {:induction false} SortedAre(aliases: Aliases, sorted: seq<Sorted>)
    requires InOrder(aliases, sorted)
    ensures Ids(sorted) <= aliases.Keys
  {
    if sorted != [] {
      SortedAre(aliases, sorted[..|sorted| - 1]);
    }
  }

  // ----- Instantiation dimensions -----

  /** A variable, the dimensions it is instantiated along with their sizes, and its alias. */
  datatype Variable = Variable(dims: map<nat, nat>, alias: Option<Alias>)

  /** What is known of dimensions: which are fused, and their sizes. */
  datatype Space = Space(merged: (nat, nat) -> bool, size: nat -> nat)

  /** The dimensions along which an alias must be instantiated by itself. */
  function FindInstantiationDims(alias: Alias, space: Space): map<nat, nat> {
    map lhs | lhs in alias.dimMapping && alias.dimMapping[lhs].Some? && !space.merged(lhs, alias.dimMapping[lhs].value) ::
      alias.dimMapping[lhs].value := space.size(alias.dimMapping[lhs].value)
  }

  function OwnDims(alias: Option<Alias>, space: Space): map<nat, nat> {
    if alias.None? then map[] else FindInstantiationDims(alias.value, space)
  }

  /** Every dimension an alias is mapped to can be mapped back. */
  ghost predicate Reversible(alias: Alias) {
    forall lhs :: lhs in alias.dimMapping && alias.dimMapping[lhs].Some? ==> alias.dimMapping[lhs].value in alias.reverse
  }

  type Wrapped = map<nat, Variable>

  /** Each dimension of a variable, pulled back through its alias, is one of the variable it aliases with. */
  ghost predicate Pulled(wrapped: Wrapped, v: nat, d: nat)
    requires v in wrapped
  {
    wrapped[v].alias.Some? ==>
      wrapped[v].alias.value.other in wrapped && wrapped[v].alias.value.Pull(d) in wrapped[wrapped[v].alias.value.other].dims
  }

  ghost predicate Closed(wrapped: Wrapped) {
    forall v, d :: v in wrapped && d in wrapped[v].dims ==> Pulled(wrapped, v, d)
  }

  /** A choice of dimensions that is closed, and contains those each variable needs by itself. */
  ghost predicate ClosedFamily(aliases: Aliases, space: Space, family: nat -> set<nat>) {
    forall v :: v in aliases ==>
      && OwnDims(aliases[v], space).Keys <= family(v)
      && (aliases[v].Some? ==> forall d :: d in family(v) ==> aliases[v].value.Pull(d) in family(aliases[v].value.other))
  }

  /** The wrapped variables hold no more than any closed choice. */
  ghost predicate AtMost(wrapped: Wrapped, family: nat -> set<nat>) {
    forall v :: v in wrapped ==> wrapped[v].dims.Keys <= family(v)
  }

  ghost predicate Least(aliases: Aliases, space: Space, wrapped: Wrapped) {
    forall family :: ClosedFamily(aliases, space, family) ==> AtMost(wrapped, family)
  }

  ghost predicate SameAliases(aliases: Aliases, wrapped: Wrapped) {
    forall v :: v in wrapped ==> v in aliases && wrapped[v].alias == aliases[v]
  }

  /** Aliased variables come first: each one wrapped so far aliases with another one. */
  ghost predicate OthersWrapped(wrapped: Wrapped) {
    forall v :: v in wrapped && wrapped[v].alias.Some? ==> wrapped[v].alias.value.other in wrapped
  }

  /** Dimension `d` of `v` belongs to every closed choice. */
  ghost predicate Needed(aliases: Aliases, space: Space, v: nat, d: nat) {
    forall family :: ClosedFamily(aliases, space, family) ==> d in family(v)
  }

  function WithDim(wrapped: Wrapped, v: nat, d: nat, size: nat): Wrapped
    requires v in wrapped
  {
    wrapped[v := wrapped[v].(dims := wrapped[v].dims[d := size])]
  }

  /** Everything is pulled back but, maybe, towards the pair about to be inserted. */
  ghost predicate ClosedBut(wrapped: Wrapped, next: Option<(nat, nat)>) {
    forall v, d :: v in wrapped && d in wrapped[v].dims ==>
      Pulled(wrapped, v, d) || (next.Some? && Awaited(wrapped, v, d, next.value))
  }

  /** The variables wrapped so far, of which only dimensions grow. */
  ghost predicate WrappedOk(aliases: Aliases, space: Space, wrapped: Wrapped) {
    SameAliases(aliases, wrapped) && OthersWrapped(wrapped) && Least(aliases, space, wrapped)
  }

  lemma InsertStep(wrapped: Wrapped, v: nat, d: nat, size: nat)
    requires v in wrapped && ClosedBut(wrapped, Some((v, d)))
    ensures ClosedBut(WithDim(wrapped, v, d, size),
                      if d in wrapped[v].dims || wrapped[v].alias.None? then None
                      else Some((wrapped[v].alias.value.other, wrapped[v].alias.value.Pull(d))))
  {
    var after := WithDim(wrapped, v, d, size);
    var next := if d in wrapped[v].dims || wrapped[v].alias.None? then None
                else Some((wrapped[v].alias.value.other, wrapped[v].alias.value.Pull(d)));
    forall u, e | u in after && e in after[u].dims
      ensures Pulled(after, u, e) || (next.Some? && Awaited(after, u, e, next.value))
    {
      if e in wrapped[u].dims {
        assert Pulled(wrapped, u, e) || Awaited(wrapped, u, e, (v, d));
      }
    }
  }

  /** Dimensions mapped to each other have the same size. */
  ghost predicate SameSizes(aliases: Aliases, space: Space) {
    forall v, d :: v in aliases && aliases[v].Some? ==> space.size(aliases[v].value.Pull(d)) == space.size(d)
  }

  /** Every dimension a variable is instantiated along has its size. */
  ghost predicate SizesRight(space: Space, wrapped: Wrapped) {
    forall v, d :: v in wrapped && d in wrapped[v].dims ==> wrapped[v].dims[d] == space.size(d)
  }

  /** Adds a dimension to `v` and to the variables it aliases with, until one that has it already. */
  method PropagateDim(aliases: Aliases, space: Space, wrapped: Wrapped, v: nat, d: nat, size: nat, ghost rank: nat -> nat)
    returns (wrapped': Wrapped)
    requires Acyclic(aliases, rank) && WrappedOk(aliases, space, wrapped) && ClosedBut(wrapped, None)
    requires v in wrapped && Needed(aliases, space, v, d)
    ensures WrappedOk(aliases, space, wrapped') && ClosedBut(wrapped', None)
    ensures Grown(wrapped, wrapped') && d in wrapped'[v].dims
    ensures SameSizes(aliases, space) && SizesRight(space, wrapped) && size == space.size(d) ==> SizesRight(space, wrapped')
  {
    wrapped' := wrapped;
    var current := Some((v, d));
    while current.Some?
      invariant WrappedOk(aliases, space, wrapped') && Grown(wrapped, wrapped') && ClosedBut(wrapped', current)
      invariant current.Some? ==> current.value.0 in wrapped' && Needed(aliases, space, current.value.0, current.value.1)
      invariant d in wrapped'[v].dims || current == Some((v, d))
      invariant SameSizes(aliases, space) && SizesRight(space, wrapped) && size == space.size(d) ==>
                  SizesRight(space, wrapped') && (current.Some? ==> size == space.size(current.value.1))
      decreases if current.Some? then 1 + rank(current.value.0) else 0
    {
      var (u, e) := current.value;
      InsertStep(wrapped', u, e, size);
      LeastGrows(aliases, space, wrapped', u, e, size);
      if e !in wrapped'[u].dims && wrapped'[u].alias.Some? {
        NeededPulled(aliases, space, u, e);
        current := Some((wrapped'[u].alias.value.other, wrapped'[u].alias.value.Pull(e)));
      } else {
        current := None;
      }
      wrapped' := WithDim(wrapped', u, e, size);
    }
  }

  ghost predicate Grown(wrapped: Wrapped, wrapped': Wrapped) {
    wrapped'.Keys == wrapped.Keys && forall u :: u in wrapped ==> wrapped[u].dims.Keys <= wrapped'[u].dims.Keys
  }

  /** The pulled back dimension is the one about to be inserted. */
  ghost predicate Awaited(wrapped: Wrapped, u: nat, e: nat, next: (nat, nat))
    requires u in wrapped
  {
    wrapped[u].alias.Some? && next == (wrapped[u].alias.value.other, wrapped[u].alias.value.Pull(e))
  }

  lemma LeastGrows(aliases: Aliases, space: Space, wrapped: Wrapped, u: nat, e: nat, size: nat)
    requires u in wrapped && Least(aliases, space, wrapped) && Needed(aliases, space, u, e)
    ensures Least(aliases, space, WithDim(wrapped, u, e, size))
  {
    forall family | ClosedFamily(aliases, space, family) ensures AtMost(WithDim(wrapped, u, e, size), family) {
      assert AtMost(wrapped, family);
    }
  }

  lemma NeededPulled(aliases: Aliases, space: Space, u: nat, e: nat)
    requires u in aliases && aliases[u].Some? && Needed(aliases, space, u, e)
    ensures Needed(aliases, space, aliases[u].value.other, aliases[u].value.Pull(e))
  {
  }

  // ----- All the variables -----

  lemma OwnNeeded(aliases: Aliases, space: Space, v: nat, d: nat)
    requires v in aliases && aliases[v].Some? && d in OwnDims(aliases[v], space)
    ensures Needed(aliases, space, aliases[v].value.other, aliases[v].value.Pull(d))
  {
    forall family | ClosedFamily(aliases, space, family)
      ensures aliases[v].value.Pull(d) in family(aliases[v].value.other)
    {
      assert d in family(v);
    }
  }

  /** Registers the dimensions an alias needs in the variables it aliases with. */
  method RegisterDims(aliases: Aliases, space: Space, wrapped: Wrapped, v: nat, ghost rank: nat -> nat) returns (wrapped': Wrapped)
    requires Acyclic(aliases, rank) && WrappedOk(aliases, space, wrapped) && ClosedBut(wrapped, None)
    requires v in aliases && aliases[v].Some? && aliases[v].value.other in wrapped && Reversible(aliases[v].value)
    ensures WrappedOk(aliases, space, wrapped') && ClosedBut(wrapped', None) && Grown(wrapped, wrapped')
    ensures forall d :: d in OwnDims(aliases[v], space) ==> aliases[v].value.Pull(d) in wrapped'[aliases[v].value.other].dims
    ensures SameSizes(aliases, space) && SizesRight(space, wrapped) ==> SizesRight(space, wrapped')
  {
    wrapped' := wrapped;
    var alias := aliases[v].value;
    var own := FindInstantiationDims(alias, space);
    var todo := own.Keys;
    while todo != {}
      invariant todo <= own.Keys
      invariant WrappedOk(aliases, space, wrapped') && ClosedBut(wrapped', None) && Grown(wrapped, wrapped')
      invariant forall d :: d in own.Keys - todo ==> alias.Pull(d) in wrapped'[alias.other].dims
      invariant SameSizes(aliases, space) && SizesRight(space, wrapped) ==> SizesRight(space, wrapped')
      decreases todo
    {
      var d :| d in todo;
      OwnNeeded(aliases, space, v, d);
      assert d in alias.reverse && alias.reverse[d] == alias.Pull(d);
      wrapped' := PropagateDim(aliases, space, wrapped', alias.other, alias.reverse[d], own[d], rank);
      todo := todo - {d};
    }
  }

  lemma WrapStep(aliases: Aliases, space: Space, wrapped: Wrapped, v: nat, variable: Variable)
    requires WrappedOk(aliases, space, wrapped) && ClosedBut(wrapped, None) && v in aliases && v !in wrapped
    requires variable == Variable(OwnDims(aliases[v], space), aliases[v])
    requires aliases[v].Some? ==> aliases[v].value.other in wrapped && forall d :: d in variable.dims ==>
               aliases[v].value.Pull(d) in wrapped[aliases[v].value.other].dims
    ensures WrappedOk(aliases, space, wrapped[v := variable]) && ClosedBut(wrapped[v := variable], None)
  {
    var after := wrapped[v := variable];
    forall family | ClosedFamily(aliases, space, family) ensures AtMost(after, family) {
      assert AtMost(wrapped, family);
    }
    forall u, d | u in after && d in after[u].dims ensures Pulled(after, u, d) {
      assert u != v ==> Pulled(wrapped, u, d);
    }
  }

  ghost predicate OwnIncluded(aliases: Aliases, space: Space, wrapped: Wrapped) {
    forall v :: v in wrapped && v in aliases ==> OwnDims(aliases[v], space).Keys <= wrapped[v].dims.Keys
  }

  lemma {:induction false} SortedAt(aliases: Aliases, sorted: seq<Sorted>, k: nat)
    requires InOrder(aliases, sorted) && k < |sorted|
    ensures InOrder(aliases, sorted[..k]) && InOrder(aliases, sorted[..k + 1])
    ensures Ids(sorted[..k + 1]) == Ids(sorted[..k]) + {sorted[k].id} && sorted[k].id !in Ids(sorted[..k])
    ensures sorted[k].id in aliases && aliases[sorted[k].id] == sorted[k].alias
    ensures sorted[k].alias.Some? ==> sorted[k].alias.value.other in Ids(sorted[..k])
    decreases |sorted|
  {
    var n := |sorted| - 1;
    assert sorted[..n + 1] == sorted;
    if k < n {
      SortedAt(aliases, sorted[..n], k);
      assert sorted[..n][..k] == sorted[..k] && sorted[..n][..k + 1] == sorted[..k + 1];
    }
  }

  /** Wraps the variables, each after the one it aliases with. */
  method WrapAliases(aliases: Aliases, variables: seq<nat>, space: Space, ghost rank: nat -> nat)
    returns (order: seq<Sorted>, wrapped: Wrapped)
    requires Acyclic(aliases, rank) && forall v :: v in variables <==> v in aliases
    requires forall v :: v in aliases && aliases[v].Some? ==> Reversible(aliases[v].value)
    ensures InOrder(aliases, order) && wrapped.Keys == Ids(order) == aliases.Keys
    ensures SameAliases(aliases, wrapped) && Closed(wrapped) && OwnIncluded(aliases, space, wrapped)
    ensures Least(aliases, space, wrapped) && (SameSizes(aliases, space) ==> SizesRight(space, wrapped))
  {
    order := SortVariables(aliases, variables, rank);
    wrapped := map[];
    for k := 0 to |order|
      invariant wrapped.Keys == Ids(order[..k])
      invariant WrappedOk(aliases, space, wrapped) && ClosedBut(wrapped, None) && OwnIncluded(aliases, space, wrapped)
      invariant SameSizes(aliases, space) ==> SizesRight(space, wrapped)
    {
      SortedAt(aliases, order, k);
      wrapped := WrapVariable(aliases, space, wrapped, order[k].id, rank);
    }
    assert order[..|order|] == order;
  }

  /** Wraps a variable, the one it aliases with being wrapped already. */
  method WrapVariable(aliases: Aliases, space: Space, wrapped: Wrapped, v: nat, ghost rank: nat -> nat) returns (wrapped': Wrapped)
    requires Acyclic(aliases, rank) && WrappedOk(aliases, space, wrapped) && ClosedBut(wrapped, None)
    requires OwnIncluded(aliases, space, wrapped) && v in aliases && v !in wrapped
    requires aliases[v].Some? ==> aliases[v].value.other in wrapped && Reversible(aliases[v].value)
    ensures WrappedOk(aliases, space, wrapped') && ClosedBut(wrapped', None)
    ensures OwnIncluded(aliases, space, wrapped') && wrapped'.Keys == wrapped.Keys + {v}
    ensures SameSizes(aliases, space) && SizesRight(space, wrapped) ==> SizesRight(space, wrapped')
  {
    wrapped' := wrapped;
    if aliases[v].Some? {
      wrapped' := RegisterDims(aliases, space, wrapped, v, rank);
    }
    var variable := Variable(OwnDims(aliases[v], space), aliases[v]);
    WrapStep(aliases, space, wrapped', v, variable);
    wrapped' := wrapped'[v := variable];
  }

  // ----- From definitions to aliases -----

  /** A variable holds the result of an instruction, or values of another variable, defined before it. */
  datatype VarDef =
    | FromInst
    | DimMap(other: nat, pairs: seq<(nat, nat)>)
    | LastOf(other: nat, dims: seq<nat>)

  function NewLast(other: nat, dims: seq<nat>): Alias {
    Alias(other, map d | d in dims :: None, map[])
  }

  function Forward(pairs: seq<(nat, nat)>): map<nat, Option<nat>> {
    if pairs == [] then map[]
    else Forward(pairs[..|pairs| - 1])[pairs[|pairs| - 1].0 := Some(pairs[|pairs| - 1].1)]
  }

  function Backward(pairs: seq<(nat, nat)>): map<nat, nat> {
    if pairs == [] then map[]
    else Backward(pairs[..|pairs| - 1])[pairs[|pairs| - 1].1 := pairs[|pairs| - 1].0]
  }

  function AliasOf(def: VarDef): Option<Alias> {
    match def
    case FromInst => None
    case LastOf(other, dims) => Some(NewLast(other, dims))
    case DimMap(other, pairs) => Some(Alias(other, Forward(pairs), Backward(pairs)))
  }

  function AliasesOf(defs: seq<VarDef>): Aliases {
    map v: nat | v < |defs| :: AliasOf(defs[v])
  }

  lemma {:induction false} MapsAreReverse(pairs: seq<(nat, nat)>)
    ensures forall lhs :: lhs in Forward(pairs) ==> Forward(pairs)[lhs].Some? && Forward(pairs)[lhs].value in Backward(pairs)
    ensures forall rhs :: rhs in Backward(pairs) ==> (Backward(pairs)[rhs], rhs) in pairs
  {
    if pairs != [] {
      var n := |pairs| - 1;
      MapsAreReverse(pairs[..n]);
      assert pairs == pairs[..n] + [pairs[n]];
    }
  }

  lemma AliasesReversible(defs: seq<VarDef>)
    ensures forall v :: v in AliasesOf(defs) && AliasesOf(defs)[v].Some? ==> Reversible(AliasesOf(defs)[v].value)
  {
    forall v: nat | v < |defs| && defs[v].DimMap? ensures Reversible(AliasOf(defs[v]).value) {
      MapsAreReverse(defs[v].pairs);
    }
  }

  /** The variable whose values this one takes was defined before. */
  ghost predicate DefinedBefore(defs: seq<VarDef>) {
    forall v :: 0 <= v < |defs| && !defs[v].FromInst? ==> defs[v].other < v
  }

  /** Mapped dimensions have the same size. */
  ghost predicate MappedAlike(defs: seq<VarDef>, space: Space) {
    forall v, p :: 0 <= v < |defs| && defs[v].DimMap? && p in defs[v].pairs ==> space.size(p.0) == space.size(p.1)
  }

  lemma AliasesSameSizes(defs: seq<VarDef>, space: Space)
    requires MappedAlike(defs, space)
    ensures SameSizes(AliasesOf(defs), space)
  {
    forall v: nat, d: nat | v < |defs| && AliasOf(defs[v]).Some?
      ensures space.size(AliasOf(defs[v]).value.Pull(d)) == space.size(d)
    {
      if defs[v].DimMap? && d in Backward(defs[v].pairs) {
        MapsAreReverse(defs[v].pairs);
        assert (Backward(defs[v].pairs)[d], d) in defs[v].pairs;
      }
    }
  }

  // ----- What the dimensions are, from definitions alone -----

  /** No dimension is mapped twice, on either side. */
  ghost predicate OneToOne(pairs: seq<(nat, nat)>) {
    forall p, q :: p in pairs && q in pairs && (p.0 == q.0 || p.1 == q.1) ==> p == q
  }

  /** The maps of a one-to-one list of pairs. */
  lemma {:induction false} MapsOfPairs(pairs: seq<(nat, nat)>)
    requires OneToOne(pairs)
    ensures forall l :: l in Forward(pairs) <==> exists p :: p in pairs && p.0 == l
    ensures forall r :: r in Backward(pairs) <==> exists p :: p in pairs && p.1 == r
    ensures forall p :: p in pairs ==> Forward(pairs)[p.0] == Some(p.1) && Backward(pairs)[p.1] == p.0
  {
    if pairs != [] {
      var n := |pairs| - 1;
      assert pairs == pairs[..n] + [pairs[n]];
      assert forall p :: p in pairs <==> p in pairs[..n] || p == pairs[n];
      MapsOfPairs(pairs[..n]);
    }
  }

  /** The variable maps some dimension to `d`, not fused with it. */
  ghost predicate OwnsDim(def: VarDef, space: Space, d: nat) {
    def.DimMap? && exists p :: p in def.pairs && p.1 == d && !space.merged(p.0, p.1)
  }

  /** Dimension `d` of the variable is dimension `e` of the one it takes its values from. */
  ghost predicate PullsTo(def: VarDef, d: nat, e: nat) {
    match def
    case FromInst => false
    case LastOf(_, _) => e == d
    case DimMap(_, pairs) => (e, d) in pairs || (e == d && forall p :: p in pairs ==> p.1 != d)
  }

  ghost predicate AllOneToOne(defs: seq<VarDef>) {
    forall v :: 0 <= v < |defs| && defs[v].DimMap? ==> OneToOne(defs[v].pairs)
  }

  lemma OwnDimsAre(def: VarDef, space: Space, d: nat)
    requires def.DimMap? ==> OneToOne(def.pairs)
    ensures d in OwnDims(AliasOf(def), space) <==> OwnsDim(def, space, d)
  {
    if def.DimMap? {
      MapsOfPairs(def.pairs);
      var forward := Forward(def.pairs);
      if d in OwnDims(AliasOf(def), space) {
        var l :| l in forward && forward[l].Some? && !space.merged(l, forward[l].value) && forward[l].value == d;
        var p :| p in def.pairs && p.0 == l;
        assert p == (l, d);
      }
      if p :| p in def.pairs && p.1 == d && !space.merged(p.0, p.1) {
        assert p.0 in forward && forward[p.0] == Some(d);
      }
    }
  }

  lemma PullIs(def: VarDef, d: nat)
    requires !def.FromInst? && (def.DimMap? ==> OneToOne(def.pairs))
    ensures forall e :: PullsTo(def, d, e) <==> e == AliasOf(def).value.Pull(d)
  {
    if def.DimMap? {
      MapsOfPairs(def.pairs);
      var backward := Backward(def.pairs);
      if d in backward {
        var p :| p in def.pairs && p.1 == d;
        assert p == (backward[d], d);
      }
    }
  }

  /** Where dimension `d` of variable `v` comes from. */
  ghost predicate HasOrigin(defs: seq<VarDef>, space: Space, wrapped: Wrapped, v: nat, d: nat)
    requires v < |defs|
  {
    || OwnsDim(defs[v], space, d)
    || exists w, e :: 0 <= w < |defs| && w in wrapped && e in wrapped[w].dims &&
         !defs[w].FromInst? && defs[w].other == v && PullsTo(defs[w], e, d)
  }

  /** The choice of dimensions without dimension `d` of `v`. */
  ghost function Except(wrapped: Wrapped, v: nat, d: nat): nat -> set<nat> {
    (u: nat) => if u !in wrapped then {} else if u == v then wrapped[u].dims.Keys - {d} else wrapped[u].dims.Keys
  }

  /**
   A variable is instantiated along the dimensions that it maps, unfused, from another variable,
   whose own dimension is instantiated too, and along those it must have for the variables that
   take its values; and along no other.
   */
  lemma WrappedDims(defs: seq<VarDef>, space: Space, wrapped: Wrapped)
    requires DefinedBefore(defs) && AllOneToOne(defs) && wrapped.Keys == AliasesOf(defs).Keys
    requires SameAliases(AliasesOf(defs), wrapped) && Closed(wrapped) && OwnIncluded(AliasesOf(defs), space, wrapped)
    requires Least(AliasesOf(defs), space, wrapped)
    ensures forall v, p :: 0 <= v < |defs| && defs[v].DimMap? && p in defs[v].pairs && !space.merged(p.0, p.1) ==>
              p.1 in wrapped[v].dims && p.0 in wrapped[defs[v].other].dims
    ensures forall v, d :: 0 <= v < |defs| && d in wrapped[v].dims ==> HasOrigin(defs, space, wrapped, v, d)
  {
    var aliases := AliasesOf(defs);
    forall v, p | 0 <= v < |defs| && defs[v].DimMap? && p in defs[v].pairs && !space.merged(p.0, p.1)
      ensures p.1 in wrapped[v].dims && p.0 in wrapped[defs[v].other].dims
    {
      OwnDimsAre(defs[v], space, p.1);
      PullIs(defs[v], p.1);
      assert p.1 in OwnDims(aliases[v], space) && Pulled(wrapped, v, p.1);
      assert PullsTo(defs[v], p.1, p.0);
    }
    forall v, d | 0 <= v < |defs| && d in wrapped[v].dims ensures HasOrigin(defs, space, wrapped, v, d) {
      if !HasOrigin(defs, space, wrapped, v, d) {
        ClosedWithout(defs, space, wrapped, v, d);
      }
    }
  }

  lemma ClosedWithout(defs: seq<VarDef>, space: Space, wrapped: Wrapped, v: nat, d: nat)
    requires DefinedBefore(defs) && AllOneToOne(defs) && wrapped.Keys == AliasesOf(defs).Keys
    requires SameAliases(AliasesOf(defs), wrapped) && Closed(wrapped) && OwnIncluded(AliasesOf(defs), space, wrapped)
    requires v < |defs| && d in wrapped[v].dims && !HasOrigin(defs, space, wrapped, v, d)
    ensures ClosedFamily(AliasesOf(defs), space, Except(wrapped, v, d)) && !AtMost(wrapped, Except(wrapped, v, d))
  {
    assert d !in Except(wrapped, v, d)(v);
    var aliases, family := AliasesOf(defs), Except(wrapped, v, d);
    forall u | u in aliases
      ensures OwnDims(aliases[u], space).Keys <= family(u)
      ensures aliases[u].Some? ==> forall e :: e in family(u) ==> aliases[u].value.Pull(e) in family(aliases[u].value.other)
    {
      OwnDimsAre(defs[u], space, d);
      if aliases[u].Some? {
        forall e | e in family(u) ensures aliases[u].value.Pull(e) in family(aliases[u].value.other) {
          PullIs(defs[u], e);
          assert Pulled(wrapped, u, e);
          assert PullsTo(defs[u], e, aliases[u].value.Pull(e));
        }
      }
    }
  }

  method GenerateAliases(defs: seq<VarDef>) returns (aliases: Aliases)
    ensures aliases == AliasesOf(defs)
  {
    aliases := map[];
    for v := 0 to |defs|
      invariant aliases == AliasesOf(defs[..v])
    {
      var alias := None;
      match defs[v] {
        case FromInst =>
        case LastOf(other, dims) => alias := Some(NewLast(other, dims));
        case DimMap(other, pairs) =>
          var forward, backward: map<nat, nat> := map[], map[];
          for k := 0 to |pairs|
            invariant forward == Forward(pairs[..k]) && backward == Backward(pairs[..k])
          {
            assert pairs[..k + 1][..k] == pairs[..k];
            forward := forward[pairs[k].0 := Some(pairs[k].1)];
            backward := backward[pairs[k].1 := pairs[k].0];
          }
          assert pairs[..|pairs|] == pairs;
          alias := Some(Alias(other, forward, backward));
      }
      assert AliasesOf(defs[..v + 1]) == AliasesOf(defs[..v])[v := AliasOf(defs[v])];
      aliases := aliases[v := alias];
    }
    assert defs[..|defs|] == defs;
  }

  /**
   Wraps the variables in an order where each follows the one it aliases with. The dimensions
   they are instantiated along are the least ones that include what each alias needs and are
   closed under pulling back, although the walk stops at dimensions found already; each has its
   size when mapped dimensions have the same one.
   */
  method WrapVariables(defs: seq<VarDef>, space: Space) returns (order: seq<Sorted>, wrapped: Wrapped)
    requires DefinedBefore(defs)
    ensures InOrder(AliasesOf(defs), order) && wrapped.Keys == Ids(order) == AliasesOf(defs).Keys
    ensures SameAliases(AliasesOf(defs), wrapped) && Closed(wrapped) && OwnIncluded(AliasesOf(defs), space, wrapped)
    ensures Least(AliasesOf(defs), space, wrapped)
    ensures MappedAlike(defs, space) ==> SizesRight(space, wrapped)
    ensures AllOneToOne(defs) ==>
              && (forall v, p :: 0 <= v < |defs| && defs[v].DimMap? && p in defs[v].pairs && !space.merged(p.0, p.1) ==>
                    p.1 in wrapped[v].dims && p.0 in wrapped[defs[v].other].dims)
              && forall v, d :: 0 <= v < |defs| && d in wrapped[v].dims ==> HasOrigin(defs, space, wrapped, v, d)
  {
    var aliases := GenerateAliases(defs);
    var variables := seq<nat>(|defs|, v => v);
    AliasesReversible(defs);
    if MappedAlike(defs, space) {
      AliasesSameSizes(defs, space);
    }
    forall v ensures v in variables <==> v in aliases {
      assert v in aliases ==> variables[v] == v;
    }
    order, wrapped := WrapAliases(aliases, variables, space, (v: nat) => v);
    if AllOneToOne(defs) {
      WrappedDims(defs, space, wrapped);
    }
  }
}
