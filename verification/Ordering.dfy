// The ID order (UTF-8 byte order, which is code-point order) and sorting by it.
module Ordering {
  type Id = string

  predicate Before(a: Id, b: Id) {
    b != [] && (a == [] || a[0] < b[0] || (a[0] == b[0] && Before(a[1..], b[1..])))
  }

  predicate AtMost(a: Id, b: Id) {
    a == b || Before(a, b)
  }

  lemma {:induction false} BeforeTransitive(a: Id, b: Id, c: Id)
    requires Before(a, b) && Before(b, c)
    ensures Before(a, c)
  {
    if a != [] && a[0] == b[0] == c[0] { BeforeTransitive(a[1..], b[1..], c[1..]); }
  }

  lemma {:induction false} BeforeIrreflexive(a: Id)
    ensures !Before(a, a)
  {
    if a != [] { BeforeIrreflexive(a[1..]); }
  }

  lemma {:induction false} BeforeTotal(a: Id, b: Id)
    ensures Before(a, b) || a == b || Before(b, a)
  {
    if a != [] && b != [] && a[0] == b[0] {
      BeforeTotal(a[1..], b[1..]);
      if a[1..] == b[1..] { assert a == [a[0]] + a[1..] == [b[0]] + b[1..] == b; }
    }
  }

  lemma AtMostOrder(a: Id, b: Id, c: Id)
    ensures AtMost(a, b) || AtMost(b, a)
    ensures AtMost(a, b) && AtMost(b, c) ==> AtMost(a, c)
    ensures AtMost(a, b) && AtMost(b, a) ==> a == b
  {
    BeforeTotal(a, b);
    if Before(a, b) && Before(b, c) { BeforeTransitive(a, b, c); }
    if Before(a, b) && Before(b, a) {
      BeforeTransitive(a, b, a);
      BeforeIrreflexive(a);
    }
  }

  // Duplicate-free and in ID order: what every closure list has to be.
  predicate Ascending(s: seq<Id>) {
    forall i | 0 < i < |s| :: Before(s[i - 1], s[i])
  }

  function Elements<T>(s: seq<T>): set<T> {
    set x | x in s
  }

  lemma {:induction false} AscendingFrom(s: seq<Id>, i: nat, j: nat)
    requires Ascending(s) && i < j < |s|
    ensures Before(s[i], s[j])
  {
    if i + 1 < j {
      AscendingFrom(s, i, j - 1);
      BeforeTransitive(s[i], s[j - 1], s[j]);
    }
  }

  lemma AscendingHead(s: seq<Id>, x: Id)
    requires Ascending(s) && s != [] && x in s[1..]
    ensures Before(s[0], x) && x != s[0]
  {
    var i :| 0 <= i < |s[1..]| && s[1..][i] == x;
    AscendingFrom(s, 0, i + 1);
    BeforeIrreflexive(s[0]);
  }

  lemma NoElements<T>(s: seq<T>)
    ensures Elements(s) == {} <==> s == []
  {
    if s != [] { assert s[0] in Elements(s); }
  }

  // An ascending list is determined by its elements.
  lemma {:induction false} AscendingUnique(s: seq<Id>, t: seq<Id>)
    requires Ascending(s) && Ascending(t) && Elements(s) == Elements(t)
    ensures s == t
  {
    NoElements(s);
    NoElements(t);
    if s != [] && t != [] {
      assert t[0] in Elements(s) && s[0] in Elements(t);
      if s[0] != t[0] {
        AscendingHead(s, t[0]);
        AscendingHead(t, s[0]);
        BeforeTransitive(s[0], t[0], s[0]);
        BeforeIrreflexive(s[0]);
      }
      forall x ensures x in Elements(s[1..]) <==> x in Elements(t[1..]) {
        if x in s[1..] { AscendingHead(s, x); assert x in Elements(s); }
        if x in t[1..] { AscendingHead(t, x); assert x in Elements(t); }
      }
      AscendingUnique(s[1..], t[1..]);
    }
  }

  predicate IsLeast(x: Id, s: set<Id>) {
    x in s && forall y | y in s :: AtMost(x, y)
  }

  lemma {:induction false} Least(s: set<Id>) returns (x: Id)
    requires s != {}
    ensures IsLeast(x, s)
  {
    x :| x in s;
    if s - {x} != {} {
      var y := Least(s - {x});
      BeforeTotal(x, y);
      var least := if Before(y, x) then y else x;
      forall z | z in s ensures AtMost(least, z) {
        if z != x {
          assert z in s - {x} && AtMost(y, z);
          if Before(x, y) && Before(y, z) { BeforeTransitive(x, y, z); }
        }
      }
      x := least;
    } else {
      assert s == {x} + (s - {x});
    }
  }

  predicate IsSorted(r: seq<Id>, s: set<Id>) {
    Ascending(r) && Elements(r) == s
  }

  lemma {:induction false} SortedExists(s: set<Id>) returns (r: seq<Id>)
    ensures IsSorted(r, s)
  {
    r := [];
    if s != {} {
      var x := Least(s);
      var rest := SortedExists(s - {x});
      r := [x] + rest;
      assert Elements(r) == {x} + Elements(rest);
      assert rest != [] ==> rest[0] in Elements(rest);
    }
  }

  function Sorted(s: set<Id>): (r: seq<Id>)
    ensures IsSorted(r, s)
  {
    assert exists r :: IsSorted(r, s) by { var r := SortedExists(s); }
    assert forall r, q | IsSorted(r, s) && IsSorted(q, s) :: r == q by {
      forall r, q | IsSorted(r, s) && IsSorted(q, s) ensures r == q { AscendingUnique(r, q); }
    }
    var r :| IsSorted(r, s);
    r
  }
}
