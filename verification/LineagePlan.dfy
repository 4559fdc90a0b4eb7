// Planning: one context for every correction lineage.
module LineagePlan {
  import opened Basics
  import opened Ordering
  import opened Sorting
  import opened Utf8
  import opened Lineage

  datatype Item = Item(id: Id, log: Id, manual: bool)

  datatype Context =
    Context(root: Log, members: seq<Log>, effective: seq<Log>, evidence: seq<Item>, displaced: seq<Item>)

  datatype Planned = Ok(contexts: seq<Context>) | IntegrityFailure | SelectorNotFound

  // ---- Orders ----

  predicate LogAtMost(a: Log, b: Log) {
    a.at < b.at || (a.at == b.at && AtMost(a.id, b.id))
  }

  predicate ItemAtMost(a: Item, b: Item) {
    AtMost(a.id, b.id)
  }

  predicate RootAtMost(a: Context, b: Context) {
    LogAtMost(a.root, b.root)
  }

  lemma PlanOrders()
    ensures TotalPreorder(LogAtMost) && TotalPreorder(ItemAtMost) && TotalPreorder(RootAtMost)
  {
    forall a, b, c: Id
      ensures AtMost(a, b) || AtMost(b, a)
      ensures AtMost(a, b) && AtMost(b, c) ==> AtMost(a, c)
    {
      AtMostOrder(a, b, c);
    }
  }

  // ---- What a plan is ----

  predicate DistinctLogs(logs: seq<Log>) {
    forall i, j | 0 <= i < j < |logs| :: logs[i].id != logs[j].id
  }

  predicate DistinctItems(items: seq<Item>) {
    forall i, j | 0 <= i < j < |items| :: items[i].id != items[j].id
  }

  function ById(logs: seq<Log>): Logs
    requires DistinctLogs(logs)
  {
    map l | l in logs :: l.id := l
  }

  // The records some correction displaces.
  function DisplacedIds(m: Logs): set<Id> {
    set x | x in m && m[x].corrects.Some? :: m[x].corrects.value
  }

  function Undisplaced(members: seq<Log>, displaced: set<Id>): (r: seq<Log>)
    ensures forall l :: l in r <==> l in members && l.id !in displaced
  {
    if members == [] then []
    else
      var rest := Undisplaced(members[1..], displaced);
      if members[0].id in displaced then rest else [members[0]] + rest
  }

  ghost predicate InLineage(m: Logs, l: Log, root: Log) {
    l.id in m && m[l.id] == l && RootOf(m, l.id, root.id)
  }

  predicate HasId(logs: seq<Log>, id: Id) {
    exists l | l in logs :: l.id == id
  }

  // The root first, then everything its chain end collects, oldest first.
  ghost predicate ListsLineage(m: Logs, root: Log, members: seq<Log>) {
    && root.id in m && m[root.id] == root && root.corrects.None?
    && members != [] && members[0] == root && DistinctLogs(members) && Ordered(members[1..], LogAtMost)
    && forall l :: l in members <==> InLineage(m, l, root)
  }

  // Undisplaced records lend all their evidence, displaced ones all but manual claims.
  ghost predicate SelectsItems(m: Logs, items: set<Item>, c: Context) {
    && Ordered(c.evidence, ItemAtMost) && Ordered(c.displaced, ItemAtMost) && DistinctItems(c.evidence + c.displaced)
    && (forall it :: it in c.evidence <==> it in items && HasId(c.effective, it.log))
    && (forall it :: it in c.displaced <==>
          it in items && !it.manual && it.log in DisplacedIds(m) && HasId(c.members, it.log))
  }

  ghost predicate IsContext(m: Logs, items: set<Item>, c: Context) {
    && ListsLineage(m, c.root, c.members)
    && c.effective == Undisplaced(c.members, DisplacedIds(m))
    && SelectsItems(m, items, c)
  }

  // One context per root, in the order of the roots.
  ghost predicate IsPlan(m: Logs, items: set<Item>, plan: seq<Context>) {
    && (forall c | c in plan :: IsContext(m, items, c))
    && Ordered(plan, RootAtMost)
    && (forall i, j | 0 <= i < j < |plan| :: plan[i].root != plan[j].root)
    && (forall x | x in m && m[x].corrects.None? :: exists c :: c in plan && c.root == m[x])
  }

  // ---- The contexts partition the log, and every one of them is live ----

  lemma RootIsRoot(m: Logs, x: Id, r: Id)
    requires RootOf(m, x, r)
    ensures x in m && r in m && m[r].corrects.None? && RootOf(m, r, r)
  {
    var p :| WalksTo(m, p, x, r);
    StepRoot(m, r, r);
  }

  /** Every retained record is in exactly one context, once. */
  lemma PlanPartitions(m: Logs, items: set<Item>, plan: seq<Context>, x: Id)
    requires IsPlan(m, items, plan) && x in m && Sound(m)
    ensures exists i :: 0 <= i < |plan| && m[x] in plan[i].members
    ensures forall i, j |
              0 <= i < |plan| && 0 <= j < |plan| && m[x] in plan[i].members && m[x] in plan[j].members :: i == j
    ensures forall c | c in plan :: DistinctLogs(c.members)
  {
    SoundIsRooted(m);
    var r :| RootOf(m, x, r);
    RootIsRoot(m, x, r);
    var c :| c in plan && c.root == m[r];
    assert InLineage(m, m[x], c.root);
    forall i, j | 0 <= i < |plan| && 0 <= j < |plan| && m[x] in plan[i].members && m[x] in plan[j].members
      ensures i == j
    {
      assert IsContext(m, items, plan[i]) && IsContext(m, items, plan[j]);
      RootUnique(m, x, plan[i].root.id, plan[j].root.id);
    }
  }

  // Following corrections outwards from any member reaches an undisplaced one.
  lemma {:induction false} LiveAbove(m: Logs, p: seq<Id>, r: Id) returns (x: Id)
    requires Acyclic(m) && Walk(m, p) && p[|p| - 1] == r && m[r].corrects.None?
    ensures x in m && RootOf(m, x, r) && x !in DisplacedIds(m)
    decreases |m.Keys| - |p|
  {
    WalkShort(m, p);
    x := p[0];
    assert WalksTo(m, p, x, r);
    if x in DisplacedIds(m) {
      var y :| y in m && m[y].corrects == Some(x);
      WalksJoin(m, [y], p);
      WalkShort(m, [y] + p);
      x := LiveAbove(m, [y] + p, r);
    }
  }

  /** Every lineage keeps at least one undisplaced record. */
  lemma LineageIsLive(m: Logs, items: set<Item>, c: Context)
    requires IsContext(m, items, c) && Sound(m)
    ensures c.effective != []
  {
    var x := LiveAbove(m, [c.root.id], c.root.id);
    assert InLineage(m, m[x], c.root);
    assert m[x] in c.effective;
  }

  // ---- The plan is a function of the stored rows ----

  lemma SameMembersList(m: Logs, root: Log, a: seq<Log>, b: seq<Log>)
    requires ListsLineage(m, root, a) && ListsLineage(m, root, b)
    ensures a == b
  {
    forall l | l in a[1..] ensures l.id in m && m[l.id] == l { assert l in a && InLineage(m, l, root); }
    LogsSeparate(m, a[1..]);
    SameTail(a, b);
  }

  lemma SameTail(a: seq<Log>, b: seq<Log>)
    requires a != [] && b != [] && a[0] == b[0] && DistinctLogs(a) && DistinctLogs(b) && forall l :: l in a <==> l in b
    requires Ordered(a[1..], LogAtMost) && Ordered(b[1..], LogAtMost) && Separates(a[1..], LogAtMost)
    ensures a == b
  {
    forall x ensures x in a[1..] <==> x in b[1..] {
      assert x in a[1..] <==> x in a && x != a[0];
      assert x in b[1..] <==> x in b && x != b[0];
    }
    SameCollection(a[1..], b[1..]);
    OrderedUnique(a[1..], b[1..], LogAtMost);
    assert a == [a[0]] + a[1..] && b == [b[0]] + b[1..];
  }

  lemma LogsSeparate(m: Logs, s: seq<Log>)
    requires forall l | l in s :: l.id in m && m[l.id] == l
    ensures Separates(s, LogAtMost)
  {
    forall i, j | 0 <= i < |s| && 0 <= j < |s| && LogAtMost(s[i], s[j]) && LogAtMost(s[j], s[i]) ensures s[i] == s[j] {
      AtMostOrder(s[i].id, s[j].id, s[i].id);
      assert s[i] in s && s[j] in s;
    }
  }

  lemma SameItemList(a: seq<Item>, b: seq<Item>)
    requires Ordered(a, ItemAtMost) && Ordered(b, ItemAtMost) && DistinctItems(a) && DistinctItems(b)
    requires forall it :: it in a <==> it in b
    ensures a == b
  {
    SameCollection(a, b);
    forall i, j | 0 <= i < |a| && 0 <= j < |a| && ItemAtMost(a[i], a[j]) && ItemAtMost(a[j], a[i])
      ensures a[i] == a[j]
    {
      AtMostOrder(a[i].id, a[j].id, a[i].id);
    }
    OrderedUnique(a, b, ItemAtMost);
  }

  lemma DistinctParts(a: seq<Item>, b: seq<Item>)
    requires DistinctItems(a + b)
    ensures DistinctItems(a) && DistinctItems(b)
  {
    var s := a + b;
    assert forall i | 0 <= i < |a| :: a[i] == s[i];
    assert forall i | 0 <= i < |b| :: b[i] == s[|a| + i];
  }

  lemma SameContext(m: Logs, items: set<Item>, a: Context, b: Context)
    requires IsContext(m, items, a) && IsContext(m, items, b) && a.root == b.root
    ensures a == b
  {
    SameMembersList(m, a.root, a.members, b.members);
    DistinctParts(a.evidence, a.displaced);
    DistinctParts(b.evidence, b.displaced);
    SameItemList(a.evidence, b.evidence);
    SameItemList(a.displaced, b.displaced);
  }

  lemma PlanCovers(m: Logs, items: set<Item>, p: seq<Context>, q: seq<Context>, c: Context)
    requires IsPlan(m, items, p) && IsPlan(m, items, q) && c in p
    ensures c in q
  {
    assert IsContext(m, items, c);
    var d :| d in q && d.root == m[c.root.id];
    SameContext(m, items, c, d);
  }

  /** The stored rows determine the plan, whatever order they are read in. */
  lemma PlanUnique(m: Logs, items: set<Item>, p: seq<Context>, q: seq<Context>)
    requires IsPlan(m, items, p) && IsPlan(m, items, q)
    ensures p == q
  {
    forall c ensures c in p <==> c in q {
      if c in p { PlanCovers(m, items, p, q, c); }
      if c in q { PlanCovers(m, items, q, p, c); }
    }
    SameCollection(p, q);
    forall i, j | 0 <= i < |p| && 0 <= j < |p| && RootAtMost(p[i], p[j]) && RootAtMost(p[j], p[i])
      ensures p[i] == p[j]
    {
      AtMostOrder(p[i].root.id, p[j].root.id, p[i].root.id);
      assert IsContext(m, items, p[i]) && IsContext(m, items, p[j]);
    }
    OrderedUnique(p, q, RootAtMost);
  }

  // ---- What a plan says of the rows ----

  ghost predicate Earlier(a: Log, b: Log) {
    a.at < b.at || (a.at == b.at && BytesBefore(Encoded(a.id), Encoded(b.id)))
  }

  ghost predicate CorrectedIn(logs: seq<Log>, id: Id) {
    exists k :: k in logs && k.corrects == Some(id)
  }

  // By the bytes of their IDs, none twice.
  ghost predicate InIdOrder(items: seq<Item>) {
    forall i, j | 0 <= i < j < |items| :: BytesBefore(Encoded(items[i].id), Encoded(items[j].id))
  }

  // The root, then the other records whose chain ends there, oldest first; the
  // uncorrected ones in the same order; all evidence of those, and of the
  // corrected ones whatever is no manual claim.
  ghost predicate ContextOf(logs: seq<Log>, m: Logs, items: set<Item>, c: Context) {
    && c.root in logs && c.root.corrects.None? && c.members != [] && c.members[0] == c.root
    && (forall i, j | 0 < i < j < |c.members| :: Earlier(c.members[i], c.members[j]))
    && (forall l :: l in c.members <==> l in logs && RootOf(m, l.id, c.root.id))
    && (forall l :: l in c.effective <==> l in c.members && !CorrectedIn(logs, l.id))
    && (forall i, j | 0 <= i < j < |c.effective| && c.effective[i] != c.root ::
          c.effective[j] != c.root && Earlier(c.effective[i], c.effective[j]))
    && InIdOrder(c.evidence) && InIdOrder(c.displaced)
    && (forall it :: it in c.evidence <==>
          it in items && exists l :: l in c.members && l.id == it.log && !CorrectedIn(logs, l.id))
    && forall it :: it in c.displaced <==>
          it in items && !it.manual && exists l :: l in c.members && l.id == it.log && CorrectedIn(logs, l.id)
  }

  // One context for each root record, oldest root first.
  ghost predicate PlanOf(logs: seq<Log>, m: Logs, items: set<Item>, plan: seq<Context>) {
    && (forall c | c in plan :: ContextOf(logs, m, items, c))
    && (forall i, j | 0 <= i < j < |plan| :: Earlier(plan[i].root, plan[j].root))
    && forall l | l in logs && l.corrects.None? :: exists c :: c in plan && c.root == l
  }

  lemma OrderIsEarlier(a: Log, b: Log)
    requires a.id != b.id
    ensures LogAtMost(a, b) <==> Earlier(a, b)
  {
    BeforeIsByteOrder(a.id, b.id);
  }

  lemma ItemsInIdOrder(items: seq<Item>)
    requires Ordered(items, ItemAtMost) && DistinctItems(items)
    ensures InIdOrder(items)
  {
    forall i, j | 0 <= i < j < |items| ensures BytesBefore(Encoded(items[i].id), Encoded(items[j].id)) {
      assert ItemAtMost(items[i], items[j]);
      BeforeIsByteOrder(items[i].id, items[j].id);
    }
  }

  lemma MembersOldestFirst(members: seq<Log>)
    requires members != [] && DistinctLogs(members) && Ordered(members[1..], LogAtMost)
    ensures forall i, j | 0 < i < j < |members| :: Earlier(members[i], members[j])
  {
    forall i, j | 0 < i < j < |members| ensures Earlier(members[i], members[j]) {
      assert LogAtMost(members[1..][i - 1], members[1..][j - 1]);
      OrderIsEarlier(members[i], members[j]);
    }
  }

  // What holds of every record and each one after it still does of the undisplaced ones.
  lemma {:induction false} UndisplacedInOrder(members: seq<Log>, displaced: set<Id>, before: (Log, Log) -> bool)
    requires Ordered(members, before)
    ensures Ordered(Undisplaced(members, displaced), before)
  {
    if members != [] {
      var tail, rest := members[1..], Undisplaced(members[1..], displaced);
      UndisplacedInOrder(tail, displaced, before);
      forall k | 0 <= k < |rest| ensures before(members[0], rest[k]) {
        assert rest[k] in rest;
        var i: nat :| i < |tail| && tail[i] == rest[k];
        assert before(members[0], members[i + 1]);
      }
    }
  }

  lemma EffectiveInOrder(root: Log, members: seq<Log>, displaced: set<Id>)
    requires members != [] && members[0] == root && DistinctLogs(members)
    requires forall i, j | 0 < i < j < |members| :: Earlier(members[i], members[j])
    ensures var e := Undisplaced(members, displaced);
            forall i, j | 0 <= i < j < |e| && e[i] != root :: e[j] != root && Earlier(e[i], e[j])
  {
    var before: (Log, Log) -> bool := (a, b) => b != root && (a != root ==> Earlier(a, b));
    assert Ordered(members, before) by {
      forall i, j | 0 <= i < j < |members| ensures before(members[i], members[j]) {
        assert members[0].id != members[j].id;
      }
    }
    UndisplacedInOrder(members, displaced, before);
    var e := Undisplaced(members, displaced);
    forall i, j | 0 <= i < j < |e| && e[i] != root ensures e[j] != root && Earlier(e[i], e[j]) {
      assert before(e[i], e[j]);
    }
  }

  lemma DisplacedIsCorrected(m: Logs, logs: seq<Log>, id: Id)
    requires Indexes(m, logs)
    ensures id in DisplacedIds(m) <==> CorrectedIn(logs, id)
  {
    if k :| k in logs && k.corrects == Some(id) { assert m[k.id] == k; }
    if x :| x in m && m[x].corrects == Some(id) { assert m[x] in logs; }
  }

  lemma ContextMeans(m: Logs, logs: seq<Log>, items: set<Item>, c: Context)
    requires Indexes(m, logs) && IsContext(m, items, c)
    ensures ContextOf(logs, m, items, c)
  {
    MembersOldestFirst(c.members);
    EffectiveInOrder(c.root, c.members, DisplacedIds(m));
    DistinctParts(c.evidence, c.displaced);
    ItemsInIdOrder(c.evidence);
    ItemsInIdOrder(c.displaced);
    forall id ensures id in DisplacedIds(m) <==> CorrectedIn(logs, id) { DisplacedIsCorrected(m, logs, id); }
    forall l ensures l in c.members <==> l in logs && RootOf(m, l.id, c.root.id) {
      assert l in c.members <==> InLineage(m, l, c.root);
    }
    SelectionMeans(m, logs, items, c);
  }

  lemma SelectionMeans(m: Logs, logs: seq<Log>, items: set<Item>, c: Context)
    requires SelectsItems(m, items, c) && c.effective == Undisplaced(c.members, DisplacedIds(m))
    requires forall id :: id in DisplacedIds(m) <==> CorrectedIn(logs, id)
    ensures forall it :: it in c.evidence <==>
              it in items && exists l :: l in c.members && l.id == it.log && !CorrectedIn(logs, l.id)
    ensures forall it :: it in c.displaced <==>
              it in items && !it.manual && exists l :: l in c.members && l.id == it.log && CorrectedIn(logs, l.id)
  {
  }

  lemma PlanMeans(m: Logs, logs: seq<Log>, items: set<Item>, plan: seq<Context>)
    requires Indexes(m, logs) && IsPlan(m, items, plan)
    ensures PlanOf(logs, m, items, plan)
  {
    forall c | c in plan ensures ContextOf(logs, m, items, c) { ContextMeans(m, logs, items, c); }
    forall i, j | 0 <= i < j < |plan| ensures Earlier(plan[i].root, plan[j].root) {
      assert RootAtMost(plan[i], plan[j]) && IsContext(m, items, plan[i]) && IsContext(m, items, plan[j]);
      OrderIsEarlier(plan[i].root, plan[j].root);
    }
  }

  // ---- Planning ----

  function Grouped(logs: seq<Log>, roots: map<Id, Id>, root: Id): seq<Log> {
    if logs == [] then []
    else
      var last := logs[|logs| - 1];
      Grouped(logs[..|logs| - 1], roots, root) + if last.id in roots && roots[last.id] == root then [last] else []
  }

  lemma {:induction false} GroupedMembers(logs: seq<Log>, roots: map<Id, Id>, root: Id)
    ensures forall l :: l in Grouped(logs, roots, root) <==> l in logs && l.id in roots && roots[l.id] == root
    ensures DistinctLogs(logs) ==> DistinctLogs(Grouped(logs, roots, root))
  {
    if logs != [] {
      assert logs == logs[..|logs| - 1] + [logs[|logs| - 1]];
      GroupedMembers(logs[..|logs| - 1], roots, root);
    }
  }

  // Exactly the groups with members, each complete.
  ghost predicate Groups(logs: seq<Log>, roots: map<Id, Id>, groups: map<Id, seq<Log>>) {
    forall r :: if r in groups then groups[r] == Grouped(logs, roots, r) != [] else Grouped(logs, roots, r) == []
  }

  function GroupOf(groups: map<Id, seq<Log>>, root: Id): seq<Log> {
    if root in groups then groups[root] else []
  }

  lemma GroupedStep(logs: seq<Log>, i: nat, roots: map<Id, Id>, groups: map<Id, seq<Log>>)
    requires i < |logs| && logs[i].id in roots && Groups(logs[..i], roots, groups)
    ensures var r := roots[logs[i].id]; Groups(logs[..i + 1], roots, groups[r := GroupOf(groups, r) + [logs[i]]])
  {
    var l := logs[i];
    assert logs[..i + 1][..i] == logs[..i];
    forall r ensures Grouped(logs[..i + 1], roots, r) == GroupOf(groups, r) + if roots[l.id] == r then [l] else [] {
      assert Grouped(logs[..i], roots, r) == GroupOf(groups, r);
    }
  }

  method GroupByRoot(logs: seq<Log>, roots: map<Id, Id>) returns (order: seq<Id>, groups: map<Id, seq<Log>>)
    requires forall l | l in logs :: l.id in roots
    ensures NoRepeats(order) && (forall r :: r in order <==> r in groups) && Groups(logs, roots, groups)
  {
    order, groups := [], map[];
    for i := 0 to |logs|
      invariant NoRepeats(order) && (forall r :: r in order <==> r in groups) && Groups(logs[..i], roots, groups)
    {
      var l := logs[i];
      assert l in logs;
      GroupedStep(logs, i, roots, groups);
      if roots[l.id] !in groups { order := order + [roots[l.id]]; }
      groups := groups[roots[l.id] := GroupOf(groups, roots[l.id]) + [l]];
    }
    assert logs[..|logs|] == logs;
  }

  method ListMembers(m: Logs, root: Log, group: seq<Log>) returns (members: seq<Log>)
    requires root in group && root.corrects.None? && DistinctLogs(group)
    requires forall l :: l in group <==> InLineage(m, l, root)
    ensures ListsLineage(m, root, members)
  {
    PlanOrders();
    var other := (l: Log) => l.id != root.id;
    var rest := Filter(group, other);
    FilterNoRepeats(group, other);
    SortByNoRepeats(rest, LogAtMost);
    SortByOrdered(rest, LogAtMost);
    members := [root] + SortBy(rest, LogAtMost);
    assert members[1..] == SortBy(rest, LogAtMost);
    forall l ensures l in members <==> InLineage(m, l, root) {
      assert l in members <==> l == root || l in members[1..];
    }
    forall i, j | 0 <= i < j < |members| ensures members[i].id != members[j].id {
      assert members[j] in members[1..] && members[j] in rest;
      if i > 0 { assert members[i] == members[1..][i - 1] && members[j] == members[1..][j - 1]; }
      assert InLineage(m, members[i], root) && InLineage(m, members[j], root);
    }
  }

  method SelectItems(items: seq<Item>, keep: Item -> bool) returns (r: seq<Item>)
    ensures Ordered(r, ItemAtMost) && forall it :: it in r <==> it in items && keep(it)
    ensures DistinctItems(items) ==> DistinctItems(r)
  {
    PlanOrders();
    r := SortBy(Filter(items, keep), ItemAtMost);
    SortByOrdered(Filter(items, keep), ItemAtMost);
    SameMembers(r, Filter(items, keep));
    if DistinctItems(items) {
      FilterNoRepeats(items, keep);
      SortByNoRepeats(Filter(items, keep), ItemAtMost);
      forall i, j | 0 <= i < j < |r| ensures r[i].id != r[j].id {
        assert r[i] in items && r[j] in items;
      }
    }
  }

  // Effective and displaced records are different records.
  lemma SelectionsDiffer(items: seq<Item>, a: seq<Item>, b: seq<Item>)
    requires DistinctItems(items) && DistinctItems(a) && DistinctItems(b)
    requires forall it | it in a || it in b :: it in items
    requires forall it | it in a :: it !in b
    ensures DistinctItems(a + b)
  {
    var s := a + b;
    forall i, j | 0 <= i < j < |s| ensures s[i].id != s[j].id {
      if i < |a| <= j { assert s[i] in a && s[j] in b; }
    }
  }

  method BuildContext(m: Logs, items: seq<Item>, root: Log, group: seq<Log>) returns (r: Option<Context>)
    requires root in group && root.corrects.None? && DistinctLogs(group)
    requires forall l :: l in group <==> InLineage(m, l, root)
    ensures r.Some? ==> IsContext(m, Elements(items), r.value) && r.value.root == root
    ensures DistinctItems(items) ==> r.Some?
  {
    var members := ListMembers(m, root, group);
    var displacedIds := DisplacedIds(m);
    var effective := Undisplaced(members, displacedIds);
    var evidence := SelectItems(items, (it: Item) => HasId(effective, it.log));
    var displaced := SelectItems(items, (it: Item) => !it.manual && it.log in displacedIds && HasId(members, it.log));
    if DistinctItems(items) { SelectionsDiffer(items, evidence, displaced); }
    if !DistinctItems(evidence + displaced) { return None; }
    return Some(Context(root, members, effective, evidence, displaced));
  }

  // The map holds the listed records, each under its own ID.
  ghost predicate Indexes(m: Logs, logs: seq<Log>) {
    DistinctLogs(logs) && forall l :: l in logs <==> l.id in m && m[l.id] == l
  }

  lemma GroupIsLineage(m: Logs, logs: seq<Log>, roots: map<Id, Id>, root: Id)
    requires Indexes(m, logs) && Memo(m, roots) && roots.Keys == m.Keys
    requires Grouped(logs, roots, root) != []
    ensures root in m && m[root].corrects.None? && m[root] in Grouped(logs, roots, root)
    ensures DistinctLogs(Grouped(logs, roots, root))
    ensures forall l :: l in Grouped(logs, roots, root) <==> InLineage(m, l, m[root])
  {
    GroupedMembers(logs, roots, root);
    var l := Grouped(logs, roots, root)[0];
    assert l in Grouped(logs, roots, root) && RootOf(m, l.id, root);
    RootIsRoot(m, l.id, root);
    RootUnique(m, root, roots[root], root);
    forall k ensures k in Grouped(logs, roots, root) <==> InLineage(m, k, m[root]) {
      if InLineage(m, k, m[root]) { RootUnique(m, k.id, roots[k.id], root); }
    }
  }

  ghost predicate Built(m: Logs, items: set<Item>, order: seq<Id>, contexts: seq<Context>) {
    && |contexts| == |order|
    && forall k | 0 <= k < |order| :: IsContext(m, items, contexts[k]) && contexts[k].root.id == order[k]
  }

  lemma BuiltGrows(m: Logs, items: set<Item>, order: seq<Id>, i: nat, contexts: seq<Context>, c: Context)
    requires i < |order| && Built(m, items, order[..i], contexts) && IsContext(m, items, c) && c.root.id == order[i]
    ensures Built(m, items, order[..i + 1], contexts + [c])
  {
  }

  // One turn of the loop over the groups.
  method BuildNext(m: Logs, logs: seq<Log>, items: seq<Item>, roots: map<Id, Id>, group: seq<Log>, root: Id)
    returns (r: Option<Context>)
    requires Indexes(m, logs) && Memo(m, roots) && roots.Keys == m.Keys && group == Grouped(logs, roots, root) != []
    ensures r.Some? ==> IsContext(m, Elements(items), r.value) && r.value.root.id == root
    ensures DistinctItems(items) ==> r.Some?
  {
    GroupIsLineage(m, logs, roots, root);
    r := BuildContext(m, items, m[root], group);
  }

  method BuildContexts(m: Logs, logs: seq<Log>, items: seq<Item>, roots: map<Id, Id>) returns (r: Option<seq<Context>>)
    requires Indexes(m, logs) && Memo(m, roots) && roots.Keys == m.Keys
    ensures r.Some? ==> IsPlan(m, Elements(items), r.value)
    ensures DistinctItems(items) ==> r.Some?
  {
    var order, groups := GroupByRoot(logs, roots);
    var contexts: seq<Context> := [];
    for i := 0 to |order|
      invariant Built(m, Elements(items), order[..i], contexts)
    {
      assert order[i] in order;
      var context := BuildNext(m, logs, items, roots, groups[order[i]], order[i]);
      if context.None? { return None; }
      BuiltGrows(m, Elements(items), order, i, contexts, context.value);
      contexts := contexts + [context.value];
    }
    assert order[..|order|] == order;
    SortedIsPlan(m, logs, Elements(items), roots, order, contexts);
    return Some(SortBy(contexts, RootAtMost));
  }

  // Every root record has been given its context.
  lemma RootsBuilt(m: Logs, logs: seq<Log>, items: set<Item>, roots: map<Id, Id>, order: seq<Id>,
                   contexts: seq<Context>, x: Id)
    requires Indexes(m, logs) && Memo(m, roots) && roots.Keys == m.Keys && Built(m, items, order, contexts)
    requires forall r | Grouped(logs, roots, r) != [] :: r in order
    requires x in m && m[x].corrects.None?
    ensures exists c :: c in contexts && c.root == m[x]
  {
    StepRoot(m, x, x);
    RootUnique(m, x, roots[x], x);
    GroupedMembers(logs, roots, x);
    assert m[x] in Grouped(logs, roots, x);
    var k :| 0 <= k < |order| && order[k] == x;
    assert IsContext(m, items, contexts[k]) && contexts[k] in contexts;
  }

  lemma RootsDiffer(m: Logs, items: set<Item>, order: seq<Id>, contexts: seq<Context>)
    requires NoRepeats(order) && Built(m, items, order, contexts)
    ensures forall c, d | c in contexts && d in contexts && c.root == d.root :: c == d
    ensures NoRepeats(contexts)
  {
    forall i, j | 0 <= i < |contexts| && 0 <= j < |contexts| && contexts[i].root == contexts[j].root ensures i == j {
      assert order[i] == order[j];
    }
  }

  lemma SortedIsPlan(
    m: Logs, logs: seq<Log>, items: set<Item>, roots: map<Id, Id>, order: seq<Id>, contexts: seq<Context>)
    requires Indexes(m, logs) && Memo(m, roots) && roots.Keys == m.Keys && Built(m, items, order, contexts)
    requires NoRepeats(order) && forall r | Grouped(logs, roots, r) != [] :: r in order
    ensures IsPlan(m, items, SortBy(contexts, RootAtMost))
  {
    RootsDiffer(m, items, order, contexts);
    assert forall c | c in contexts :: IsContext(m, items, c);
    forall x | x in m && m[x].corrects.None? ensures exists c :: c in contexts && c.root == m[x] {
      RootsBuilt(m, logs, items, roots, order, contexts, x);
    }
    SortedPlan(m, items, contexts);
  }

  lemma SortedPlan(m: Logs, items: set<Item>, contexts: seq<Context>)
    requires forall c | c in contexts :: IsContext(m, items, c)
    requires forall x | x in m && m[x].corrects.None? :: exists c :: c in contexts && c.root == m[x]
    requires NoRepeats(contexts) && forall c, d | c in contexts && d in contexts && c.root == d.root :: c == d
    ensures IsPlan(m, items, SortBy(contexts, RootAtMost))
  {
    PlanOrders();
    SortByOrdered(contexts, RootAtMost);
    SortByNoRepeats(contexts, RootAtMost);
    var plan := SortBy(contexts, RootAtMost);
    forall i, j | 0 <= i < j < |plan| ensures plan[i].root != plan[j].root {
      assert plan[i] in contexts && plan[j] in contexts;
    }
  }

  // The selected record's context, out of the whole plan.
  ghost predicate Selects(m: Logs, items: set<Item>, id: Id, contexts: seq<Context>) {
    && |contexts| == 1 && id in m && m[id] in contexts[0].members
    && exists plan :: IsPlan(m, items, plan) && contexts[0] in plan
  }

  lemma ByIdIndexes(logs: seq<Log>)
    requires DistinctLogs(logs)
    ensures Indexes(ById(logs), logs)
  {
  }

  /** The whole plan, or the one context of it that holds the selected record. */
  method PlanLineages(logs: seq<Log>, items: seq<Item>, selected: Option<Id>) returns (r: Planned)
    ensures r.Ok? ==> DistinctLogs(logs) && Sound(ById(logs)) && forall it | it in items :: it.log in ById(logs)
    ensures r.Ok? && selected.None? ==> IsPlan(ById(logs), Elements(items), r.contexts)
    ensures r.Ok? && selected.Some? ==> Selects(ById(logs), Elements(items), selected.value, r.contexts)
    ensures r.Ok? && selected.None? ==> PlanOf(logs, ById(logs), Elements(items), r.contexts)
    ensures r.Ok? && selected.Some? ==>
              && |r.contexts| == 1 && ContextOf(logs, ById(logs), Elements(items), r.contexts[0])
              && exists l :: l in r.contexts[0].members && l.id == selected.value
    ensures r.SelectorNotFound? <==> DistinctLogs(logs) && selected.Some? && selected.value !in ById(logs)
    ensures (forall i, j | 0 <= i < j < |logs| :: logs[i].id != logs[j].id) ==> DistinctLogs(logs)
    ensures (forall i, j | 0 <= i < j < |items| :: items[i].id != items[j].id) && DistinctLogs(logs)
            && Sound(ById(logs)) && (forall it | it in items :: it.log in ById(logs)) ==>
              !r.IntegrityFailure?
  {
    if !DistinctLogs(logs) { return IntegrityFailure; }
    var m := ById(logs);
    ByIdIndexes(logs);
    if selected.Some? && selected.value !in m { return SelectorNotFound; }
    var order := seq(|logs|, i requires 0 <= i < |logs| => logs[i].id);
    OrderIsKeys(m, logs, order);
    var roots := SnapshotRoots(m, order);
    if roots.None? { return IntegrityFailure; }
    if !(forall it | it in items :: it.log in m) { return IntegrityFailure; }
    assert Memo(m, roots.value);
    var contexts := BuildContexts(m, logs, items, roots.value);
    if contexts.None? { return IntegrityFailure; }
    PlanMeans(m, logs, Elements(items), contexts.value);
    if selected.None? { return Ok(contexts.value); }
    var mine := OnlyContext(m, Elements(items), contexts.value, roots.value, selected.value);
    return Ok(mine);
  }

  lemma OrderIsKeys(m: Logs, logs: seq<Log>, order: seq<Id>)
    requires Indexes(m, logs) && order == seq(|logs|, i requires 0 <= i < |logs| => logs[i].id)
    ensures Elements(order) == m.Keys
  {
    forall x | x in m ensures x in order {
      assert m[x] in logs;
      var i :| 0 <= i < |logs| && logs[i] == m[x];
      assert order[i] == x;
    }
  }

  // The one index a root occurs at.
  lemma OnlyIndex(m: Logs, items: set<Item>, contexts: seq<Context>, roots: map<Id, Id>, id: Id) returns (k: nat)
    requires IsPlan(m, items, contexts) && id in m && Memo(m, roots) && id in roots
    ensures k < |contexts| && m[id] in contexts[k].members
    ensures forall i | 0 <= i < |contexts| :: contexts[i].root.id == roots[id] <==> i == k
  {
    RootIsRoot(m, id, roots[id]);
    var c :| c in contexts && c.root == m[roots[id]];
    k :| 0 <= k < |contexts| && contexts[k] == c;
    assert IsContext(m, items, c) && InLineage(m, m[id], c.root);
    forall i | 0 <= i < |contexts| && contexts[i].root.id == roots[id] ensures i == k {
      assert IsContext(m, items, contexts[i]);
    }
  }

  // Filtering by the selected record's root leaves exactly its own context.
  method OnlyContext(m: Logs, items: set<Item>, contexts: seq<Context>, roots: map<Id, Id>, id: Id)
    returns (r: seq<Context>)
    requires IsPlan(m, items, contexts) && id in m && Memo(m, roots) && id in roots
    ensures Selects(m, items, id, r) && r[0] in contexts
  {
    r := [];
    ghost var k := OnlyIndex(m, items, contexts, roots, id);
    for i := 0 to |contexts|
      invariant r == if k < i then [contexts[k]] else []
    {
      if contexts[i].root.id == roots[id] { r := r + [contexts[i]]; }
    }
    assert r[0] in contexts;
  }
}
