/** What `ORDER BY key LIMIT n` returns: the first n members of a set, in key order. */
module Ordering {

  ghost predicate StrictTotal<T(!new)>(less: (T, T) -> bool) {
    && (forall x :: !less(x, x))
    && (forall x, y, z :: less(x, y) && less(y, z) ==> less(x, z))
    && (forall x, y :: x != y ==> less(x, y) || less(y, x))
  }

  predicate Least<T(==)>(m: T, s: set<T>, less: (T, T) -> bool) {
    m in s && forall y :: y in s && y != m ==> less(m, y)
  }

  lemma {:induction false} LeastExists<T(!new)>(s: set<T>, less: (T, T) -> bool)
    requires StrictTotal(less) && s != {}
    ensures exists m :: Least(m, s, less)
  {
    var x :| x in s;
    var rest := s - {x};
    if rest == {} {
      assert s == {x};
      assert Least(x, s, less);
    } else {
      LeastExists(rest, less);
      var m :| Least(m, rest, less);
      assert s == rest + {x} && m != x;
      if less(x, m) {
        assert Least(x, s, less);
      } else {
        assert Least(m, s, less);
      }
    }
  }

  /** The first `limit` members of `s` in ascending order. */
  function Ascending<T(==,!new)>(s: set<T>, less: (T, T) -> bool, limit: nat): (r: seq<T>)
    requires StrictTotal(less)
    ensures |r| == if |s| < limit then |s| else limit
    ensures forall x :: x in r ==> x in s
    ensures forall i, j :: 0 <= i < j < |r| ==> less(r[i], r[j])
    ensures forall x, y :: x in r && y in s && y !in r ==> less(x, y)
    decreases limit
  {
    if s == {} || limit == 0 then []
    else
      LeastExists(s, less);
      var m :| Least(m, s, less);
      [m] + Ascending(s - {m}, less, limit - 1)
  }

  function Members<T(==)>(r: seq<T>): set<T> {
    set x | x in r
  }

  lemma {:induction false} DistinctSize<T>(r: seq<T>)
    requires forall i, j :: 0 <= i < j < |r| ==> r[i] != r[j]
    ensures |Members(r)| == |r|
  {
    if r == [] {
      assert Members(r) == {};
    } else {
      DistinctSize(r[1..]);
      assert r[0] !in r[1..] && r == [r[0]] + r[1..];
      assert Members(r) == {r[0]} + Members(r[1..]);
    }
  }

  /** Distinct members of `s`, as many as `s` has, are all of them. */
  lemma AllMembers<T>(s: set<T>, r: seq<T>)
    requires |r| == |s| && forall x :: x in r ==> x in s
    requires forall i, j :: 0 <= i < j < |r| ==> r[i] != r[j]
    ensures s == Members(r)
  {
    DistinctSize(r);
    var missing := s - Members(r);
    assert Members(r) <= s && |missing| == |s| - |Members(r)|;
    assert missing == {};
  }

  /** Whatever a limited selection leaves out comes after all it took, and it took up to the limit. */
  lemma AscendingTakes<T(!new)>(s: set<T>, less: (T, T) -> bool, limit: nat)
    requires StrictTotal(less)
    ensures var r := Ascending(s, less, limit);
      && (forall k :: 0 <= k < |r| ==> r[k] in s)
      && (forall i, j :: 0 <= i < j < |r| ==> less(r[i], r[j]) && r[i] != r[j])
      && (forall x :: x in s && x !in r ==> |r| == limit && forall k :: 0 <= k < |r| ==> less(r[k], x))
      && (|s| <= limit ==> s == Members(r))
  {
    var r := Ascending(s, less, limit);
    assert forall k :: 0 <= k < |r| ==> r[k] in r;
    if |s| <= limit {
      AllMembers(s, r);
    }
  }

  /** All of `s` in ascending order. */
  function Sorted<T(==,!new)>(s: set<T>, less: (T, T) -> bool): (r: seq<T>)
    requires StrictTotal(less)
    ensures |r| == |s|
    ensures forall x :: x in r <==> x in s
    ensures forall i, j :: 0 <= i < j < |r| ==> less(r[i], r[j])
  {
    AscendingTakes(s, less, |s|);
    Ascending(s, less, |s|)
  }

  /** Two ascending sequences with the same members are equal. */
  lemma {:induction false} AscendingUnique<T(!new)>(a: seq<T>, b: seq<T>, less: (T, T) -> bool)
    requires StrictTotal(less)
    requires forall x :: x in a <==> x in b
    requires forall i, j :: 0 <= i < j < |a| ==> less(a[i], a[j])
    requires forall i, j :: 0 <= i < j < |b| ==> less(b[i], b[j])
    ensures a == b
  {
    if a == [] {
      assert forall j :: 0 <= j < |b| ==> b[j] in a;
    } else {
      assert a[0] in b && (b != [] ==> b[0] in a);
      assert a[0] == b[0];
      assert a[0] !in a[1..] && b[0] !in b[1..];
      assert forall x :: x in a[1..] <==> x in a && x != a[0];
      assert forall x :: x in b[1..] <==> x in b && x != b[0];
      AscendingUnique(a[1..], b[1..], less);
    }
  }

  /** Sorting a set splits at any cut that separates it. */
  lemma SortedSplit<T(!new)>(low: set<T>, high: set<T>, less: (T, T) -> bool)
    requires StrictTotal(less)
    requires forall x, y :: x in low && y in high ==> less(x, y)
    ensures Sorted(low + high, less) == Sorted(low, less) + Sorted(high, less)
  {
    var a, b := Sorted(low, less), Sorted(high, less);
    var whole, ab := Sorted(low + high, less), a + b;
    forall i, j | 0 <= i < j < |ab| ensures less(ab[i], ab[j]) {
      if i < |a| <= j {
        assert ab[i] in a && ab[j] in b;
      }
    }
    AscendingUnique(whole, ab, less);
  }
}
