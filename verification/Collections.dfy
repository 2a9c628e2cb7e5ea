/** Facts about sequences, sets and integer-valued maps that several components share. */
module Collections {

  datatype Option<+T> = None | Some(value: T)

  datatype Result<+T, +E> = Success(value: T) | Failure(error: E)

  // ---------- sequences without repetition ----------

  ghost predicate NoDup<T>(s: seq<T>) {
    forall i, j :: 0 <= i < j < |s| ==> s[i] != s[j]
  }

  ghost function Elements<T>(s: seq<T>): set<T> {
    set x | x in s
  }

  lemma {:induction false} NoDupCardinality<T>(s: seq<T>)
    requires NoDup(s)
    ensures |Elements(s)| == |s|
  {
    if s == [] {
      assert Elements(s) == {};
    } else {
      var front, last := s[..|s| - 1], s[|s| - 1];
      NoDupCardinality(front);
      assert s == front + [last];
      assert Elements(s) == Elements(front) + {last};
    }
  }

  /** A repetition-free sequence drawn from another is no longer than it. */
  lemma {:induction false} SubsetCardinality<T>(a: set<T>, b: set<T>)
    requires a <= b
    ensures |a| <= |b|
    ensures |a| == |b| ==> a == b
    decreases a
  {
    if a != {} {
      var x :| x in a;
      SubsetCardinality(a - {x}, b - {x});
    }
  }

  /** Two repetition-free sequences over the same elements are permutations of each other. */
  lemma SameElementsPermute<T>(s: seq<T>, t: seq<T>)
    requires NoDup(s) && NoDup(t) && Elements(s) == Elements(t)
    ensures multiset(s) == multiset(t)
  {
    forall x ensures multiset(s)[x] == multiset(t)[x] {
      NoDupMultiplicity(s, x);
      NoDupMultiplicity(t, x);
      assert x in s <==> x in Elements(s);
      assert x in t <==> x in Elements(t);
    }
  }

  lemma {:induction false} NoDupMultiplicity<T>(s: seq<T>, x: T)
    requires NoDup(s)
    ensures multiset(s)[x] == if x in s then 1 else 0
  {
    if s != [] {
      var front, last := s[..|s| - 1], s[|s| - 1];
      assert s == front + [last];
      NoDupMultiplicity(front, x);
    }
  }

  /** The sequence without its repetitions, each element kept where it first occurs:
      what collecting into an insertion-ordered set and listing it again gives. */
  function Distinct<T(==)>(s: seq<T>): seq<T> {
    if s == [] then []
    else
      var front := Distinct(s[..|s| - 1]);
      if s[|s| - 1] in front then front else front + [s[|s| - 1]]
  }

  ghost predicate FirstAt<T>(s: seq<T>, x: T, i: nat) {
    i < |s| && s[i] == x && x !in s[..i]
  }

  lemma {:induction false} DistinctElements<T>(s: seq<T>)
    ensures NoDup(Distinct(s)) && Elements(Distinct(s)) == Elements(s)
    ensures s != [] ==> Distinct(s) != []
  {
    if s != [] {
      var front, last := s[..|s| - 1], s[|s| - 1];
      DistinctElements(front);
      assert s == front + [last];
      assert Elements(s) == Elements(front) + {last};
      assert last in Distinct(front) <==> last in Elements(Distinct(front));
      assert Elements(Distinct(front) + [last]) == Elements(Distinct(front)) + {last};
    }
  }

  /** The elements stand in the order of their first occurrences. */
  lemma {:induction false} DistinctKeepsFirsts<T>(s: seq<T>)
    ensures NoDup(Distinct(s)) && Elements(Distinct(s)) == Elements(s)
    ensures s != [] ==> Distinct(s) != []
    ensures forall i, j, p, q ::
              0 <= i < j < |Distinct(s)| && FirstAt(s, Distinct(s)[i], p) && FirstAt(s, Distinct(s)[j], q) ==> p < q
  {
    DistinctElements(s);
    if s != [] {
      var front, last := s[..|s| - 1], s[|s| - 1];
      DistinctKeepsFirsts(front);
      assert s == front + [last];
      forall i, j, p, q | 0 <= i < j < |Distinct(s)| && FirstAt(s, Distinct(s)[i], p) && FirstAt(s, Distinct(s)[j], q)
        ensures p < q
      {
        var x, y := Distinct(s)[i], Distinct(s)[j];
        assert x in Elements(Distinct(front)) && x in front;
        FirstStays(front, last, x, p);
        if y in front {
          FirstStays(front, last, y, q);
          assert last in Elements(front) <==> last in Distinct(front);
          assert Distinct(front)[i] == x && Distinct(front)[j] == y;
        } else {
          assert q == |front|;
        }
      }
    }
  }

  lemma FirstStays<T>(front: seq<T>, last: T, x: T, p: nat)
    requires x in front && FirstAt(front + [last], x, p)
    ensures p < |front| && FirstAt(front, x, p)
  {
    var s := front + [last];
    assert s[..|front|] == front;
    assert s[..p] == front[..p];
  }

  // ---------- strictly increasing sequences ----------

  ghost predicate Increasing(s: seq<nat>) {
    forall i, j :: 0 <= i < j < |s| ==> s[i] < s[j]
  }

  /** The sequence without the first occurrence of x, if there is one. */
  function Without<T(==)>(s: seq<T>, x: T): seq<T> {
    if s == [] then [] else if s[0] == x then s[1..] else [s[0]] + Without(s[1..], x)
  }

  lemma FirstIsLeast(s: seq<nat>)
    requires Increasing(s) && s != []
    ensures Increasing(s[1..]) && forall y :: y in s[1..] ==> s[0] < y
  {
    forall y | y in s[1..] ensures s[0] < y {
      var k :| 0 <= k < |s[1..]| && s[1..][k] == y;
      assert s[0] < s[k + 1];
    }
  }

  lemma IncreasingFrom(first: nat, rest: seq<nat>)
    requires Increasing(rest) && forall y :: y in rest ==> first < y
    ensures Increasing([first] + rest)
  {
    assert forall j :: 0 <= j < |rest| ==> rest[j] in rest;
  }

  lemma {:induction false} WithoutKeepsOrder(s: seq<nat>, x: nat)
    requires Increasing(s)
    ensures Increasing(Without(s, x))
    ensures forall y :: y in Without(s, x) <==> y in s && y != x
  {
    if s != [] {
      var first, rest := s[0], s[1..];
      assert s == [first] + rest;
      FirstIsLeast(s);
      WithoutKeepsOrder(rest, x);
      if first != x {
        IncreasingFrom(first, Without(rest, x));
      }
    }
  }

  // ---------- totals over maps ----------

  ghost function Total<K>(m: map<K, int>): int
    decreases |m|
  {
    if m == map[] then 0
    else
      var k :| k in m.Keys;
      m[k] + Total(m - {k})
  }

  lemma {:induction false} TotalRemove<K>(m: map<K, int>, k: K)
    requires k in m
    ensures Total(m) == m[k] + Total(m - {k})
    decreases |m|
  {
    var c :| c in m.Keys && Total(m) == m[c] + Total(m - {c});
    if c != k {
      TotalRemove(m - {c}, k);
      TotalRemove(m - {k}, c);
      assert m - {c} - {k} == m - {k} - {c};
    }
  }

  function At<K>(m: map<K, int>, k: K): int {
    if k in m then m[k] else 0
  }

  lemma TotalUpdate<K>(m: map<K, int>, k: K, v: int)
    ensures Total(m[k := v]) == Total(m) - At(m, k) + v
  {
    var n := m[k := v];
    TotalRemove(n, k);
    if k in m {
      TotalRemove(m, k);
      assert n - {k} == m - {k};
    } else {
      assert n - {k} == m;
    }
  }

  lemma {:induction false} TotalIsNotNegative<K>(m: map<K, int>)
    requires forall k :: k in m ==> m[k] >= 0
    ensures Total(m) >= 0
    decreases |m|
  {
    if m != map[] {
      var k :| k in m.Keys && Total(m) == m[k] + Total(m - {k});
      TotalIsNotNegative(m - {k});
    }
  }

  lemma TotalIsAtLeast<K>(m: map<K, int>, k: K)
    requires forall x :: x in m ==> m[x] >= 0
    ensures At(m, k) <= Total(m)
  {
    TotalIsNotNegative(m);
    if k in m {
      TotalRemove(m, k);
      TotalIsNotNegative(m - {k});
    }
  }
}
