/** The contracts' enumerable set: an array of values with an index map beside it, where removal moves the
    last value into the gap. An index is a position plus one; an absent one counts as zero. */
module EnumerableSet {
  import opened Collections

  datatype Set<T(==)> = Set(values: seq<T>, indexes: map<T, nat>)

  predicate Contains<T(==)>(s: Set<T>, v: T) {
    v in s.indexes && s.indexes[v] != 0
  }

  /** The index map covers exactly the listed values, and says where each one stands. */
  ghost predicate Indexed<T>(s: Set<T>) {
    && (forall i :: 0 <= i < |s.values| ==> s.values[i] in s.indexes && s.indexes[s.values[i]] == i + 1)
    && (forall v :: v in s.indexes ==> v in s.values)
  }

  function Empty<T(==)>(): Set<T> {
    Set([], map[])
  }

  function Added<T(==)>(s: Set<T>, v: T): Set<T> {
    if Contains(s, v) then s else Set(s.values + [v], s.indexes[v := |s.values| + 1])
  }

  function Removed<T(==)>(s: Set<T>, v: T): Set<T> {
    if !Contains(s, v) || s.indexes[v] > |s.values| then s
    else
      var gap, last := s.indexes[v] - 1, |s.values| - 1;
      var lastValue := s.values[last];
      if last == gap then Set(s.values[..last], s.indexes - {v})
      else Set(s.values[gap := lastValue][..last], s.indexes[lastValue := gap + 1] - {v})
  }

  lemma AddedIsInsertion<T>(s: Set<T>, v: T)
    requires Indexed(s)
    ensures Indexed(Added(s, v))
    ensures forall x :: Contains(Added(s, v), x) <==> Contains(s, x) || x == v
  {
  }

  lemma StandsAtItsIndex<T>(s: Set<T>, v: T)
    requires Indexed(s) && Contains(s, v)
    ensures s.indexes[v] <= |s.values| && s.values[s.indexes[v] - 1] == v
  {
    var i :| 0 <= i < |s.values| && s.values[i] == v;
  }

  lemma RemovedIsDeletion<T>(s: Set<T>, v: T)
    requires Indexed(s)
    ensures Indexed(Removed(s, v))
    ensures forall x :: Contains(Removed(s, v), x) <==> Contains(s, x) && x != v
  {
    if Contains(s, v) {
      StandsAtItsIndex(s, v);
      var gap, last := s.indexes[v] - 1, |s.values| - 1;
      var after := Removed(s, v);
      assert after.indexes.Keys == s.indexes.Keys - {v};
      forall k | 0 <= k < last
        ensures after.values[k] == s.values[if k == gap then last else k] && after.indexes[after.values[k]] == k + 1
      {
      }
      forall x | x in after.indexes ensures x in after.values {
        StandsAtItsIndex(s, x);
        var k := s.indexes[x] - 1;
        assert after.values[if k == last then gap else k] == x;
      }
    }
  }

  // ---------- runs ----------

  datatype Op<T> = Insert(value: T) | Delete(value: T)

  function RunOps<T(==)>(ops: seq<Op<T>>): Set<T> {
    if ops == [] then Empty()
    else
      match ops[|ops| - 1]
      case Insert(v) => Added(RunOps(ops[..|ops| - 1]), v)
      case Delete(v) => Removed(RunOps(ops[..|ops| - 1]), v)
  }

  function Members<T(==)>(ops: seq<Op<T>>): set<T> {
    if ops == [] then {}
    else
      match ops[|ops| - 1]
      case Insert(v) => Members(ops[..|ops| - 1]) + {v}
      case Delete(v) => Members(ops[..|ops| - 1]) - {v}
  }

  lemma {:induction false} RunContains<T>(ops: seq<Op<T>>, x: T)
    ensures Indexed(RunOps(ops)) && (Contains(RunOps(ops), x) <==> x in Members(ops))
  {
    if ops != [] {
      var front := ops[..|ops| - 1];
      RunContains(front, x);
      match ops[|ops| - 1]
      case Insert(v) => AddedIsInsertion(RunOps(front), v);
      case Delete(v) => RemovedIsDeletion(RunOps(front), v);
    }
  }

  lemma ListsMembers<T>(s: Set<T>)
    requires Indexed(s)
    ensures NoDup(s.values) && forall x :: x in s.values <==> Contains(s, x)
  {
  }

  lemma ListsExactly<T>(s: Set<T>, members: set<T>)
    requires Indexed(s) && forall x :: Contains(s, x) <==> x in members
    ensures NoDup(s.values) && Elements(s.values) == members && |s.values| == |members|
  {
    ListsMembers(s);
    NoDupCardinality(s.values);
  }

  /** After any run of insertions and deletions the array lists, each once, exactly the members of the set. */
  lemma RunIsTheSet<T>(ops: seq<Op<T>>)
    ensures forall x :: Contains(RunOps(ops), x) <==> x in Members(ops)
    ensures NoDup(RunOps(ops).values) && Elements(RunOps(ops).values) == Members(ops)
    ensures |RunOps(ops).values| == |Members(ops)|
  {
    forall x ensures Indexed(RunOps(ops)) && (Contains(RunOps(ops), x) <==> x in Members(ops)) {
      RunContains(ops, x);
    }
    ListsExactly(RunOps(ops), Members(ops));
  }

  // ---------- the set as the object it is ----------

  class SwapSet<T(==)> {
    var values: seq<T>
    var indexes: map<T, nat>

    ghost function Abstract(): Set<T>
      reads this
    {
      Set(values, indexes)
    }

    ghost predicate WellFormed()
      reads this
    {
      Indexed(Abstract())
    }

    constructor ()
      ensures Abstract() == Empty() && WellFormed()
    {
      values, indexes := [], map[];
    }

    method Add(value: T) returns (added: bool)
      requires WellFormed()
      modifies this
      ensures Abstract() == Added(old(Abstract()), value) && WellFormed()
      ensures added <==> !Contains(old(Abstract()), value)
    {
      AddedIsInsertion(Abstract(), value);
      if value in indexes && indexes[value] != 0 {
        return false;
      }
      values := values + [value];
      indexes := indexes[value := |values|];
      added := true;
    }

    method Remove(value: T) returns (removed: bool)
      requires WellFormed()
      modifies this
      ensures Abstract() == Removed(old(Abstract()), value) && WellFormed()
      ensures removed <==> Contains(old(Abstract()), value)
    {
      RemovedIsDeletion(Abstract(), value);
      if value !in indexes || indexes[value] == 0 {
        return false;
      }
      var valueIndex := indexes[value];
      var toDeleteIndex, lastIndex := valueIndex - 1, |values| - 1;
      if lastIndex != toDeleteIndex {
        var lastValue := values[lastIndex];
        values := values[toDeleteIndex := lastValue];
        indexes := indexes[lastValue := valueIndex];
      }
      values := values[..lastIndex];
      indexes := indexes - {value};
      removed := true;
    }
  }
}
