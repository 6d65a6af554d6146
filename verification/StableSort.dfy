/**
 `sort` with a comparator, as a stable insertion sort; `before`
 says that the comparator puts one element ahead of another.
 */
module StableSort {

  ghost predicate StrictWeakOrder<T(!new)>(before: (T, T) -> bool) {
    && (forall x, y :: before(x, y) ==> !before(y, x))
    && (forall x, y, z :: before(x, z) ==> before(x, y) || before(y, z))
  }

  function Insert<T>(x: T, s: seq<T>, before: (T, T) -> bool): (r: seq<T>)
    ensures multiset(r) == multiset{x} + multiset(s)
  {
    if s == [] || !before(s[0], x) then [x] + s
    else
      assert s == [s[0]] + s[1..];
      [s[0]] + Insert(x, s[1..], before)
  }

  function Sort<T>(s: seq<T>, before: (T, T) -> bool): (r: seq<T>)
    ensures multiset(r) == multiset(s)
  {
    if s == [] then []
    else
      assert s == [s[0]] + s[1..];
      Insert(s[0], Sort(s[1..], before), before)
  }

  ghost predicate Ordered<T(!new)>(s: seq<T>, before: (T, T) -> bool) {
    forall i, j | 0 <= i < j < |s| :: !before(s[j], s[i])
  }

  lemma {:induction false} InsertKeepsOrder<T(!new)>(x: T, s: seq<T>, before: (T, T) -> bool)
    requires StrictWeakOrder(before) && Ordered(s, before)
    ensures Ordered(Insert(x, s, before), before)
    decreases |s|
  {
    var r := Insert(x, s, before);
    if s == [] || !before(s[0], x) {
      forall i, j | 0 <= i < j < |r| ensures !before(r[j], r[i]) {
        if i == 0 && j > 1 {
          assert !before(s[j - 1], s[0]);
        } else if i > 0 {
          assert !before(s[j - 1], s[i - 1]);
        }
      }
    } else {
      var t := Insert(x, s[1..], before);
      InsertKeepsOrder(x, s[1..], before);
      forall i, j | 0 <= i < j < |r| ensures !before(r[j], r[i]) {
        if i == 0 {
          assert t[j - 1] in multiset(t);
          if t[j - 1] != x {
            assert t[j - 1] in multiset(s[1..]);
            var k :| 0 <= k < |s[1..]| && s[1..][k] == t[j - 1];
            assert s[k + 1] == t[j - 1];
          }
        }
      }
    }
  }

  lemma {:induction false} SortOrders<T(!new)>(s: seq<T>, before: (T, T) -> bool)
    requires StrictWeakOrder(before)
    ensures Ordered(Sort(s, before), before)
    decreases |s|
  {
    if s != [] {
      SortOrders(s[1..], before);
      InsertKeepsOrder(s[0], Sort(s[1..], before), before);
    }
  }

  function Filter<T(!new)>(s: seq<T>, p: T -> bool): (r: seq<T>)
    ensures |r| <= |s|
    ensures forall x :: x in r <==> x in s && p(x)
  {
    if s == [] then []
    else
      assert forall x :: x in s <==> x == s[0] || x in s[1..];
      (if p(s[0]) then [s[0]] else []) + Filter(s[1..], p)
  }

  lemma {:induction false} FilterCounts<T(!new)>(s: seq<T>, p: T -> bool)
    ensures forall x :: multiset(Filter(s, p))[x] == if p(x) then multiset(s)[x] else 0
    decreases |s|
  {
    if s != [] {
      var y, rest := s[0], s[1..];
      assert s == [y] + rest;
      FilterCounts(rest, p);
      if p(y) {
        assert multiset([y] + Filter(rest, p)) == multiset{y} + multiset(Filter(rest, p));
      } else {
        assert [] + Filter(rest, p) == Filter(rest, p);
      }
    }
  }

  /** The comparator does not tell apart any two elements with the property. */
  ghost predicate Alike<T(!new)>(before: (T, T) -> bool, p: T -> bool) {
    forall x, y | p(x) && p(y) :: !before(x, y)
  }

  function Kept<T>(x: T, p: T -> bool): seq<T> {
    if p(x) then [x] else []
  }

  lemma {:induction false} FilterHead<T(!new)>(x: T, s: seq<T>, p: T -> bool)
    ensures Filter([x] + s, p) == Kept(x, p) + Filter(s, p)
  {
    assert ([x] + s)[1..] == s;
  }

  lemma {:induction false} InsertIsStable<T(!new)>(x: T, s: seq<T>, before: (T, T) -> bool, p: T -> bool)
    requires Alike(before, p)
    ensures Filter(Insert(x, s, before), p) == Kept(x, p) + Filter(s, p)
    decreases |s|
  {
    if s == [] || !before(s[0], x) {
      FilterHead(x, s, p);
    } else {
      var y, rest := s[0], s[1..];
      InsertIsStable(x, rest, before, p);
      FilterHead(y, Insert(x, rest, before), p);
      FilterHead(y, rest, p);
      assert s == [y] + rest;
      KeptInEitherOrder(x, y, Filter(rest, p), before, p);
    }
  }

  lemma {:induction false} KeptInEitherOrder<T(!new)>(x: T, y: T, rest: seq<T>, before: (T, T) -> bool, p: T -> bool)
    requires Alike(before, p) && before(y, x)
    ensures Kept(y, p) + (Kept(x, p) + rest) == Kept(x, p) + (Kept(y, p) + rest)
  {
    if p(x) {
      assert !p(y);
      assert Kept(y, p) == [];
      assert [] + (Kept(x, p) + rest) == Kept(x, p) + ([] + rest);
    } else {
      assert Kept(x, p) == [];
    }
  }

  /** Elements that the comparator does not tell apart keep their order. */
  lemma {:induction false} SortIsStable<T(!new)>(s: seq<T>, before: (T, T) -> bool, p: T -> bool)
    requires Alike(before, p)
    ensures Filter(Sort(s, before), p) == Filter(s, p)
    decreases |s|
  {
    if s != [] {
      var rest := s[1..];
      SortIsStable(rest, before, p);
      InsertIsStable(s[0], Sort(rest, before), before, p);
      FilterHead(s[0], rest, p);
      assert s == [s[0]] + rest;
    }
  }

  lemma {:induction false} SortHasSame<T(!new)>(s: seq<T>, before: (T, T) -> bool)
    ensures |Sort(s, before)| == |s|
    ensures forall x :: x in Sort(s, before) <==> x in s
  {
    var r := Sort(s, before);
    assert |multiset(r)| == |r| && |multiset(s)| == |s|;
    assert forall x :: (x in r <==> x in multiset(r)) && (x in s <==> x in multiset(s));
  }

  ghost predicate DistinctBy<T, K>(s: seq<T>, key: T -> K) {
    forall i, j | 0 <= i < j < |s| :: key(s[i]) != key(s[j])
  }

  lemma {:induction false} DistinctCons<T(!new), K>(x: T, s: seq<T>, key: T -> K)
    ensures DistinctBy([x] + s, key) <==> DistinctBy(s, key) && forall y | y in s :: key(y) != key(x)
  {
    var r := [x] + s;
    if DistinctBy(r, key) {
      forall i, j | 0 <= i < j < |s| ensures key(s[i]) != key(s[j]) {
        assert r[i + 1] == s[i] && r[j + 1] == s[j];
      }
      forall y | y in s ensures key(y) != key(x) {
        var j :| 0 <= j < |s| && s[j] == y;
        assert r[0] == x && r[j + 1] == y;
      }
    }
    if DistinctBy(s, key) && forall y | y in s :: key(y) != key(x) {
      forall i, j | 0 <= i < j < |r| ensures key(r[i]) != key(r[j]) {
        assert r[j] == s[j - 1];
        if i > 0 {
          assert r[i] == s[i - 1];
        }
      }
    }
  }

  lemma {:induction false} InsertKeepsDistinct<T(!new), K>(x: T, s: seq<T>, before: (T, T) -> bool, key: T -> K)
    requires DistinctBy([x] + s, key)
    ensures DistinctBy(Insert(x, s, before), key)
    decreases |s|
  {
    if s != [] && before(s[0], x) {
      var y, rest := s[0], s[1..];
      assert s == [y] + rest;
      DistinctCons(x, s, key);
      DistinctCons(y, rest, key);
      assert forall z | z in rest :: z in s;
      DistinctCons(x, rest, key);
      InsertKeepsDistinct(x, rest, before, key);
      var t := Insert(x, rest, before);
      assert forall z | z in t :: z in multiset(t);
      DistinctCons(y, t, key);
    }
  }

  lemma {:induction false} SortKeepsDistinct<T(!new), K>(s: seq<T>, before: (T, T) -> bool, key: T -> K)
    requires DistinctBy(s, key)
    ensures DistinctBy(Sort(s, before), key)
    decreases |s|
  {
    if s != [] {
      var x, rest := s[0], s[1..];
      assert s == [x] + rest;
      DistinctCons(x, rest, key);
      SortKeepsDistinct(rest, before, key);
      SortHasSame(rest, before);
      DistinctCons(x, Sort(rest, before), key);
      InsertKeepsDistinct(x, Sort(rest, before), before, key);
    }
  }

  lemma {:induction false} FilterKeepsDistinct<T(!new), K>(s: seq<T>, p: T -> bool, key: T -> K)
    requires DistinctBy(s, key)
    ensures DistinctBy(Filter(s, p), key)
    decreases |s|
  {
    if s != [] {
      var x, rest := s[0], s[1..];
      assert s == [x] + rest;
      DistinctCons(x, rest, key);
      FilterKeepsDistinct(rest, p, key);
      DistinctCons(x, Filter(rest, p), key);
    }
  }
}
