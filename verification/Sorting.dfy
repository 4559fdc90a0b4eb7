// Stable sorting by a total preorder.
module Sorting {
  ghost predicate TotalPreorder<T(!new)>(le: (T, T) -> bool) {
    && (forall x, y :: le(x, y) || le(y, x))
    && (forall x, y, z :: le(x, y) && le(y, z) ==> le(x, z))
  }

  predicate Ordered<T>(s: seq<T>, le: (T, T) -> bool) {
    forall i, j | 0 <= i < j < |s| :: le(s[i], s[j])
  }

  // No two different elements tie.
  ghost predicate Separates<T>(s: seq<T>, le: (T, T) -> bool) {
    forall i, j | 0 <= i < |s| && 0 <= j < |s| && le(s[i], s[j]) && le(s[j], s[i]) :: s[i] == s[j]
  }

  // After every element that ties with x.
  function Insert<T>(x: T, s: seq<T>, le: (T, T) -> bool): (r: seq<T>)
    ensures multiset(r) == multiset(s) + multiset{x}
  {
    if s == [] then [x]
    else if le(s[|s| - 1], x) then s + [x]
    else
      assert s == s[..|s| - 1] + [s[|s| - 1]];
      Insert(x, s[..|s| - 1], le) + [s[|s| - 1]]
  }

  function SortBy<T>(s: seq<T>, le: (T, T) -> bool): (r: seq<T>)
    ensures multiset(r) == multiset(s)
    ensures |r| == |s|
  {
    if s == [] then []
    else
      assert s == s[..|s| - 1] + [s[|s| - 1]];
      var r := Insert(s[|s| - 1], SortBy(s[..|s| - 1], le), le);
      assert |multiset(r)| == |multiset(s)|;
      r
  }

  lemma SameMembers<T>(s: seq<T>, t: seq<T>)
    requires multiset(s) == multiset(t)
    ensures forall x :: x in s <==> x in t
  {
    forall x ensures x in s <==> x in t {
      assert x in s <==> x in multiset(s);
      assert x in t <==> x in multiset(t);
    }
  }

  lemma {:induction false} InsertOrdered<T(!new)>(x: T, s: seq<T>, le: (T, T) -> bool)
    requires TotalPreorder(le) && Ordered(s, le)
    ensures Ordered(Insert(x, s, le), le)
  {
    if s != [] {
      var rest, last := s[..|s| - 1], s[|s| - 1];
      assert forall i | 0 <= i < |rest| :: le(s[i], last);
      if !le(last, x) {
        InsertOrdered(x, rest, le);
        var r := Insert(x, rest, le);
        forall i | 0 <= i < |r| ensures le(r[i], last) {
          assert r[i] in multiset(r);
          if r[i] != x { assert r[i] in multiset(rest) && r[i] in rest; }
        }
      }
    }
  }

  lemma {:induction false} SortByOrdered<T(!new)>(s: seq<T>, le: (T, T) -> bool)
    requires TotalPreorder(le)
    ensures Ordered(SortBy(s, le), le)
  {
    if s != [] {
      SortByOrdered(s[..|s| - 1], le);
      InsertOrdered(s[|s| - 1], SortBy(s[..|s| - 1], le), le);
    }
  }

  lemma SameLast<T>(s: seq<T>, t: seq<T>, le: (T, T) -> bool)
    requires Ordered(s, le) && Ordered(t, le) && multiset(s) == multiset(t) && Separates(s, le)
    requires s != [] && t != []
    ensures s[|s| - 1] == t[|t| - 1]
  {
    var x, y := s[|s| - 1], t[|t| - 1];
    SameMembers(s, t);
    assert x in s && x in t && y in t && y in s;
    var i :| 0 <= i < |s| && s[i] == y;
    var j :| 0 <= j < |t| && t[j] == x;
    assert (i == |s| - 1 || le(s[i], x)) && (j == |t| - 1 || le(t[j], y));
  }

  lemma AllButLast<T>(s: seq<T>)
    requires s != []
    ensures multiset(s[..|s| - 1]) == multiset(s) - multiset{s[|s| - 1]}
  {
    assert s == s[..|s| - 1] + [s[|s| - 1]];
  }

  // Without ties, an ordered sequence is determined by its elements.
  lemma {:induction false} OrderedUnique<T>(s: seq<T>, t: seq<T>, le: (T, T) -> bool)
    requires Ordered(s, le) && Ordered(t, le) && multiset(s) == multiset(t) && Separates(s, le)
    ensures s == t
  {
    assert |s| == |multiset(s)| == |multiset(t)| == |t|;
    if s != [] {
      var n := |s| - 1;
      SameLast(s, t, le);
      AllButLast(s);
      AllButLast(t);
      OrderedUnique(s[..n], t[..n], le);
    }
  }

  // The sort is a function of the collection, not of the order it came in.
  lemma SortByIgnoresOrder<T(!new)>(s: seq<T>, t: seq<T>, le: (T, T) -> bool)
    requires TotalPreorder(le) && multiset(s) == multiset(t) && Separates(s, le)
    ensures SortBy(s, le) == SortBy(t, le)
  {
    var r := SortBy(s, le);
    SameMembers(s, r);
    forall i, j | 0 <= i < |r| && 0 <= j < |r| && le(r[i], r[j]) && le(r[j], r[i]) ensures r[i] == r[j] {
      assert r[i] in s && r[j] in s;
      var k :| 0 <= k < |s| && s[k] == r[i];
      var l :| 0 <= l < |s| && s[l] == r[j];
      assert s[k] == s[l];
    }
    SortByOrdered(s, le);
    SortByOrdered(t, le);
    OrderedUnique(r, SortBy(t, le), le);
  }

  ghost predicate NoRepeats<T>(s: seq<T>) {
    forall i, j | 0 <= i < j < |s| :: s[i] != s[j]
  }

  lemma {:induction false} CountOnce<T>(s: seq<T>)
    requires NoRepeats(s)
    ensures forall x :: multiset(s)[x] == if x in s then 1 else 0
  {
    if s != [] {
      var rest, last := s[..|s| - 1], s[|s| - 1];
      assert s == rest + [last];
      CountOnce(rest);
      assert last !in rest;
    }
  }

  lemma NoRepeatsByCount<T(!new)>(s: seq<T>)
    ensures NoRepeats(s) <==> forall x :: multiset(s)[x] <= 1
  {
    if NoRepeats(s) { CountOnce(s); }
    if forall x :: multiset(s)[x] <= 1 {
      forall i, j | 0 <= i < j < |s| ensures s[i] != s[j] {
        assert s == s[..j] + [s[j]] + s[j + 1..];
        assert s[i] in s[..j] && s[i] in multiset(s[..j]);
        assert multiset(s)[s[i]] >= multiset(s[..j])[s[i]] + multiset{s[j]}[s[i]];
      }
    }
  }

  // Without repeats, the elements say everything about the collection.
  lemma SameCollection<T(!new)>(s: seq<T>, t: seq<T>)
    requires NoRepeats(s) && NoRepeats(t) && forall x :: x in s <==> x in t
    ensures multiset(s) == multiset(t)
  {
    CountOnce(s);
    CountOnce(t);
  }

  lemma SortByNoRepeats<T(!new)>(s: seq<T>, le: (T, T) -> bool)
    requires NoRepeats(s)
    ensures NoRepeats(SortBy(s, le)) && forall x :: x in SortBy(s, le) <==> x in s
  {
    SameMembers(SortBy(s, le), s);
    NoRepeatsByCount(s);
    NoRepeatsByCount(SortBy(s, le));
  }

  function Filter<T(!new)>(s: seq<T>, keep: T -> bool): (r: seq<T>)
    ensures forall x :: x in r <==> x in s && keep(x)
  {
    if s == [] then []
    else
      assert s == s[..|s| - 1] + [s[|s| - 1]];
      Filter(s[..|s| - 1], keep) + if keep(s[|s| - 1]) then [s[|s| - 1]] else []
  }

  lemma {:induction false} FilterNoRepeats<T(!new)>(s: seq<T>, keep: T -> bool)
    requires NoRepeats(s)
    ensures NoRepeats(Filter(s, keep))
  {
    if s != [] {
      FilterNoRepeats(s[..|s| - 1], keep);
      assert s[|s| - 1] !in s[..|s| - 1];
    }
  }
}
