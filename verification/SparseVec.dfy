/** Vectors with holes: slots declared in advance and filled later, in any order. */
module SparseVecs {
  import opened Wrappers

  /** What a vector with holes holds: the slots filled so far, out of the declared ones. */
  datatype Slots<T> = Slots(filled: map<nat, T>, capacity: nat) {
    ghost predicate Valid() {
      forall i :: i in filled ==> i < capacity
    }

    predicate Active(i: nat) {
      i in filled
    }

    predicate Hole(i: nat) {
      i < capacity && i !in filled
    }

    function Set(i: nat, value: T): Slots<T> {
      this.(filled := filled[i := value])
    }
  }

  lemma SetTwice<T>(s: Slots<T>, i: nat, x: T, y: T)
    ensures s.Set(i, x).Set(i, y) == s.Set(i, y)
  {
    assert s.filled[i := x][i := y] == s.filled[i := y];
  }

  class SparseVec<T(!new)> {
    var vec: seq<Option<T>>
    var capacity: nat

    ghost predicate Valid()
      reads this
    {
      |vec| <= capacity
    }

    ghost function View(): (s: Slots<T>)
      reads this
      requires Valid()
      ensures s.Valid()
    {
      Slots(map i: nat | i < |vec| && vec[i].Some? :: vec[i].value, capacity)
    }

    constructor ()
      ensures Valid() && View() == Slots(map[], 0) && vec == []
    {
      vec, capacity := [], 0;
    }

    constructor FromVec(v: seq<Option<T>>)
      ensures Valid() && vec == v && capacity == |v|
    {
      vec, capacity := v, |v|;
    }

    /** Declares one slot too many when there are slots to declare. */
    method MakeHoles()
      modifies this`vec
      ensures vec == if |old(vec)| < capacity then old(vec) + seq(capacity - |old(vec)| + 1, _ => None) else old(vec)
    {
      if |vec| < capacity {
        vec := vec + seq(capacity - |vec| + 1, _ => None);
      }
    }

    /** Appends a value; it fails exactly when slots were declared past the last one in use. */
    method Push(value: T) returns (ok: bool)
      requires Valid()
      modifies this
      ensures ok <==> |old(vec)| == old(capacity)
      ensures ok ==> Valid() && vec == old(vec) + [Some(value)] && View() == Slots(old(View()).filled[old(capacity) := value], old(capacity) + 1)
    {
      MakeHoles();
      if |vec| != capacity {
        return false;
      }
      capacity := capacity + 1;
      vec := vec + [Some(value)];
      assert View().filled.Keys == old(View()).filled.Keys + {old(capacity)};
      ok := true;
    }

    method ExpandTo(newCapacity: nat) returns (ok: bool)
      requires Valid()
      modifies this`capacity
      ensures ok <==> newCapacity >= old(capacity)
      ensures Valid() && View() == if ok then old(View()).(capacity := newCapacity) else old(View())
    {
      if newCapacity < capacity {
        return false;
      }
      capacity := newCapacity;
      ok := true;
    }

    /** Fills a hole; it fails exactly when the slot was not declared or is filled already. */
    method SetLazy(index: nat, value: T) returns (ok: bool)
      requires Valid()
      modifies this`vec
      ensures Valid()
      ensures ok <==> old(View()).Hole(index)
      ensures ok ==> View() == old(View()).Set(index, value)
    {
      if index >= capacity {
        return false;
      }
      if index >= |vec| {
        vec := vec + seq(index + 1 - |vec|, _ => None);
      }
      var previous := vec[index];
      vec := vec[index := Some(value)];
      assert previous.None? ==> View().filled.Keys == old(View()).filled.Keys + {index};
      ok := previous.None?;
    }

    method At(index: nat) returns (value: Option<T>)
      requires Valid()
      ensures value == if View().Active(index) then Some(View().filled[index]) else None
    {
      value := if index < |vec| then vec[index] else None;
    }
  }
}
