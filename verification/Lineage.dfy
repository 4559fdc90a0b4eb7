// Correction lineages: who corrects whom, and the root every record belongs to.
module Lineage {
  import opened Basics
  import opened Ordering

  datatype Log = Log(id: Id, corrects: Option<Id>, at: int)

  type Logs = m: map<Id, Log> | forall x | x in m :: m[x].id == x

  // ---- Chains ----

  // Each record corrects the next one.
  ghost predicate Walk(m: Logs, p: seq<Id>) {
    && p != [] && (forall i | 0 <= i < |p| :: p[i] in m)
    && forall i | 0 <= i < |p| - 1 :: m[p[i]].corrects == Some(p[i + 1])
  }

  ghost predicate WalksTo(m: Logs, p: seq<Id>, x: Id, r: Id) {
    Walk(m, p) && p[0] == x && p[|p| - 1] == r && m[r].corrects.None?
  }

  // r is the end of x's chain.
  ghost predicate RootOf(m: Logs, x: Id, r: Id) {
    exists p :: WalksTo(m, p, x, r)
  }

  ghost predicate Closed(m: Logs) {
    forall x | x in m && m[x].corrects.Some? :: m[x].corrects.value in m
  }

  ghost predicate Acyclic(m: Logs) {
    forall p | Walk(m, p) && |p| > 1 :: p[0] != p[|p| - 1]
  }

  ghost predicate Sound(m: Logs) {
    Closed(m) && Acyclic(m)
  }

  // A chain goes one way only: any walk from x stays on the walk to its root.
  lemma {:induction false} WalkStays(m: Logs, q: seq<Id>, p: seq<Id>, r: Id)
    requires Walk(m, q) && WalksTo(m, p, q[0], r)
    ensures |q| <= |p| && q == p[..|q|]
  {
    if |q| > 1 {
      var init := q[..|q| - 1];
      WalkStays(m, init, p, r);
      assert m[init[|init| - 1]].corrects == Some(q[|q| - 1]);
    }
  }

  lemma RootUnique(m: Logs, x: Id, r: Id, s: Id)
    requires RootOf(m, x, r) && RootOf(m, x, s)
    ensures r == s
  {
    var p :| WalksTo(m, p, x, r);
    var q :| WalksTo(m, q, x, s);
    WalkStays(m, p, q, s);
    WalkStays(m, q, p, r);
  }

  // The chain of a record that corrects another one is one step longer.
  lemma StepRoot(m: Logs, x: Id, r: Id)
    requires x in m
    ensures m[x].corrects.None? ==> RootOf(m, x, x)
    ensures m[x].corrects.Some? && RootOf(m, m[x].corrects.value, r) ==> RootOf(m, x, r)
  {
    if m[x].corrects.None? { assert WalksTo(m, [x], x, x); }
    if m[x].corrects.Some? && RootOf(m, m[x].corrects.value, r) {
      var p :| WalksTo(m, p, m[x].corrects.value, r);
      assert WalksTo(m, [x] + p, x, r);
    }
  }

  lemma WalksJoin(m: Logs, a: seq<Id>, b: seq<Id>)
    requires Walk(m, a) && Walk(m, b) && m[a[|a| - 1]].corrects == Some(b[0])
    ensures Walk(m, a + b)
  {
  }

  lemma WalkFrom(m: Logs, p: seq<Id>, k: nat)
    requires Walk(m, p) && k < |p|
    ensures Walk(m, p[k..])
  {
  }

  // No walk leads from a record with a root back to itself.
  lemma NoCircle(m: Logs, c: seq<Id>, r: Id)
    requires Walk(m, c) && |c| > 1 && RootOf(m, c[0], r)
    ensures c[0] != c[|c| - 1]
  {
    if c[0] == c[|c| - 1] {
      var p :| WalksTo(m, p, c[0], r);
      WalksJoin(m, c[..|c| - 1], p);
      WalkStays(m, c[..|c| - 1] + p, p, r);
    }
  }

  lemma NextExists(m: Logs, x: Id, r: Id)
    requires RootOf(m, x, r) && x in m && m[x].corrects.Some?
    ensures m[x].corrects.value in m && RootOf(m, m[x].corrects.value, r)
  {
    var p :| WalksTo(m, p, x, r);
    WalkFrom(m, p, 1);
    assert WalksTo(m, p[1..], m[x].corrects.value, r);
  }

  ghost predicate AllRooted(m: Logs) {
    forall x | x in m :: exists r :: RootOf(m, x, r)
  }

  // Where every chain ends, no chain dangles and none runs in a circle.
  lemma RootedIsSound(m: Logs)
    requires AllRooted(m)
    ensures Sound(m)
  {
    forall x | x in m && m[x].corrects.Some? ensures m[x].corrects.value in m {
      var r :| RootOf(m, x, r);
      NextExists(m, x, r);
    }
    forall c | Walk(m, c) && |c| > 1 ensures c[0] != c[|c| - 1] {
      var r :| RootOf(m, c[0], r);
      NoCircle(m, c, r);
    }
  }

  lemma WalkUpTo(m: Logs, p: seq<Id>, k: nat)
    requires Walk(m, p) && 0 < k <= |p|
    ensures Walk(m, p[..k])
  {
  }

  lemma NoReturn(m: Logs, p: seq<Id>)
    requires Walk(m, p) && Acyclic(m)
    ensures p[0] !in p[1..]
  {
    forall k | 0 <= k < |p[1..]| ensures p[1..][k] != p[0] {
      WalkUpTo(m, p, k + 2);
    }
  }

  // Without circles, a walk visits no record twice.
  lemma {:induction false} WalkShort(m: Logs, p: seq<Id>)
    requires Walk(m, p) && Acyclic(m)
    ensures |Elements(p)| == |p| && |p| <= |m.Keys|
  {
    if |p| > 1 {
      WalkFrom(m, p, 1);
      WalkShort(m, p[1..]);
      NoReturn(m, p);
      assert Elements(p) == Elements(p[1..]) + {p[0]};
    } else {
      assert Elements(p) == {p[0]};
    }
    CardinalityBound(Elements(p), m.Keys);
  }

  lemma {:induction false} SoundEnds(m: Logs, p: seq<Id>) returns (r: Id)
    requires Sound(m) && Walk(m, p)
    ensures RootOf(m, p[|p| - 1], r)
    decreases |m.Keys| - |p|
  {
    var last := p[|p| - 1];
    WalkShort(m, p);
    r := last;
    StepRoot(m, last, last);
    if m[last].corrects.Some? {
      var next := m[last].corrects.value;
      assert Walk(m, p + [next]);
      WalkShort(m, p + [next]);
      r := SoundEnds(m, p + [next]);
      StepRoot(m, last, r);
    }
  }

  // Where no chain dangles and none runs in a circle, every chain ends.
  lemma SoundIsRooted(m: Logs)
    requires Sound(m)
    ensures AllRooted(m)
  {
    forall x | x in m ensures exists r :: RootOf(m, x, r) {
      var r := SoundEnds(m, [x]);
    }
  }

  // What a memoised walk has found: records each correcting the next, the last
  // one correcting `current`.
  ghost predicate Path(m: Logs, path: seq<Id>, start: Id, current: Id) {
    && (path == [] ==> current == start)
    && (path != [] ==> Walk(m, path) && path[0] == start && m[path[|path| - 1]].corrects == Some(current))
  }

  lemma PathGrows(m: Logs, path: seq<Id>, start: Id, current: Id)
    requires Path(m, path, start, current) && current in m
    ensures Walk(m, path + [current]) && (path + [current])[0] == start
    ensures Elements(path + [current]) == Elements(path) + {current}
    ensures m[current].corrects.Some? ==> Path(m, path + [current], start, m[current].corrects.value)
  {
  }

  // Only roots are recorded.
  ghost predicate Memo(m: Logs, roots: map<Id, Id>) {
    forall x | x in roots :: x in m && RootOf(m, x, roots[x])
  }

  lemma MemoGrows(m: Logs, roots: map<Id, Id>, path: seq<Id>, root: Id)
    requires Memo(m, roots) && forall x | x in path :: x in m && RootOf(m, x, root)
    ensures Memo(m, roots + map x | x in path :: root)
  {
  }

  lemma {:induction false} PathRooted(m: Logs, path: seq<Id>, start: Id, current: Id, r: Id)
    requires Path(m, path, start, current) && RootOf(m, current, r)
    ensures forall x | x in path :: RootOf(m, x, r)
    decreases |path|
  {
    if path != [] {
      var last := path[|path| - 1];
      StepRoot(m, last, r);
      PathRooted(m, path[..|path| - 1], start, last, r);
    }
  }

  lemma PathCircles(m: Logs, path: seq<Id>, start: Id, current: Id)
    requires Path(m, path, start, current) && current in path
    ensures !Acyclic(m)
  {
    var k :| 0 <= k < |path| && path[k] == current;
    var c := path[k..] + [current];
    assert Walk(m, c) && c[0] == c[|c| - 1] && |c| > 1;
  }

  /** Every record gets the end of its chain, or the planner refuses because a
      chain dangles or runs in a circle. */
  method SnapshotRoots(m: Logs, order: seq<Id>) returns (r: Option<map<Id, Id>>)
    requires Elements(order) == m.Keys
    ensures r.Some? <==> Sound(m)
    ensures r.Some? ==> r.value.Keys == m.Keys && forall x | x in m :: RootOf(m, x, r.value[x])
  {
    var roots: map<Id, Id> := map[];
    for i := 0 to |order|
      invariant Memo(m, roots) && forall k | 0 <= k < i :: order[k] in roots
    {
      assert order[i] in Elements(order);
      var known := Resolve(m, order[i], roots);
      if known.None? { return None; }
      roots := known.value;
    }
    assert m.Keys <= roots.Keys;
    MemoSound(m, roots);
    return Some(roots);
  }

  lemma MemoSound(m: Logs, roots: map<Id, Id>)
    requires Memo(m, roots) && m.Keys <= roots.Keys
    ensures Sound(m) && roots.Keys == m.Keys
  {
    assert AllRooted(m) by {
      forall x | x in m ensures exists r :: RootOf(m, x, r) { assert RootOf(m, x, roots[x]); }
    }
    RootedIsSound(m);
  }

  // One turn of the outer loop.
  method Resolve(m: Logs, id: Id, roots: map<Id, Id>) returns (r: Option<map<Id, Id>>)
    requires id in m && Memo(m, roots)
    ensures r.None? ==> !Sound(m)
    ensures r.Some? ==> Memo(m, r.value) && roots.Keys <= r.value.Keys && id in r.value
  {
    if id in roots { return Some(roots); }
    var walked := WalkUp(m, id, roots);
    if walked.None? { return None; }
    MemoGrows(m, roots, walked.value.0, walked.value.1);
    var grown := Record(roots, walked.value.0, walked.value.1);
    return Some(grown);
  }

  method Record(roots: map<Id, Id>, path: seq<Id>, root: Id) returns (r: map<Id, Id>)
    ensures r == roots + map x | x in path :: root
  {
    r := roots;
    for k := 0 to |path|
      invariant r == roots + map x | x in path[..k] :: root
    {
      assert path[..k + 1] == path[..k] + [path[k]];
      r := r[path[k] := root];
    }
    assert path[..|path|] == path;
  }

  // The inner walk: up to a known record or to the end of the chain.
  method WalkUp(m: Logs, start: Id, roots: map<Id, Id>) returns (r: Option<(seq<Id>, Id)>)
    requires start in m && start !in roots && Memo(m, roots)
    ensures r.None? ==> !Sound(m)
    ensures r.Some? ==> start in r.value.0 && forall x | x in r.value.0 :: x in m && RootOf(m, x, r.value.1)
  {
    var current, path := start, [];
    var seen: set<Id> := {};
    while current !in roots
      invariant Path(m, path, start, current) && seen == Elements(path)
      invariant seen <= m.Keys && |seen| == |path| && (path == [] ==> current !in roots)
      decreases |m.Keys| - |seen|
    {
      if current in seen {
        PathCircles(m, path, start, current);
        return None;
      }
      if current !in m { return None; }
      ghost var before := path;
      PathGrows(m, path, start, current);
      CardinalityBound(seen + {current}, m.Keys);
      seen, path := seen + {current}, path + [current];
      if m[current].corrects.None? {
        StepRoot(m, current, current);
        PathRooted(m, before, start, current, current);
        return Some((path, current));
      }
      current := m[current].corrects.value;
    }
    PathRooted(m, path, start, current, roots[current]);
    return Some((path, roots[current]));
  }

  lemma {:induction false} CardinalityBound<T>(a: set<T>, b: set<T>)
    requires a <= b
    ensures |a| <= |b|
  {
    assert b == a + (b - a);
    assert |a + (b - a)| == |a| + |b - a|;
  }

  // The store's own walk, one record at a time and without a memo.
  method LineageRoot(m: Logs, start: Id) returns (r: Option<Id>)
    ensures r.Some? <==> exists root :: RootOf(m, start, root)
    ensures r.Some? ==> RootOf(m, start, r.value)
  {
    var current := start;
    var seen := {start};
    ghost var path := [];
    while true
      invariant Path(m, path, start, current) && seen == Elements(path) + {current} && current !in path
      invariant Elements(path) <= m.Keys
      decreases |m.Keys| - |Elements(path)|
    {
      if current !in m {
        NoRootPast(m, path, start, current);
        return None;
      }
      ghost var longer := path + [current];
      PathGrows(m, path, start, current);
      CardinalityBound(Elements(longer), m.Keys);
      var target := m[current].corrects;
      if target.None? {
        StepRoot(m, current, current);
        PathRooted(m, path, start, current, current);
        assert path != [] ==> start in path;
        return Some(current);
      }
      if target.value in seen {
        NoRootRound(m, longer, start, target.value);
        return None;
      }
      path := longer;
      seen, current := seen + {target.value}, target.value;
    }
  }

  // The chain of the start runs through the whole path and on to `current`.
  lemma PathOnChain(m: Logs, path: seq<Id>, start: Id, current: Id, p: seq<Id>, r: Id)
    requires Path(m, path, start, current) && WalksTo(m, p, start, r)
    ensures |path| < |p| && p[|path|] == current
  {
    if path != [] {
      WalkStays(m, path, p, r);
      assert path[|path| - 1] == p[|path| - 1];
    }
  }

  lemma NoRootPast(m: Logs, path: seq<Id>, start: Id, current: Id)
    requires Path(m, path, start, current) && current !in m
    ensures forall r :: !RootOf(m, start, r)
  {
    forall r | RootOf(m, start, r) ensures false {
      var p :| WalksTo(m, p, start, r);
      PathOnChain(m, path, start, current, p, r);
    }
  }

  lemma NoRootRound(m: Logs, path: seq<Id>, start: Id, current: Id)
    requires Path(m, path, start, current) && current in path
    ensures forall r :: !RootOf(m, start, r)
  {
    var k :| 0 <= k < |path| && path[k] == current;
    WalkFrom(m, path, k);
    forall r | RootOf(m, start, r) ensures false {
      var p :| WalksTo(m, p, start, r);
      WalkStays(m, path, p, r);
      WalkFrom(m, p, k);
      assert WalksTo(m, p[k..], current, r);
      WalksJoin(m, path[k..], p[k..]);
      WalkStays(m, path[k..] + p[k..], p[k..], r);
    }
  }
}
