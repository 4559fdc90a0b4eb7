// Superseding rows in dependency order.
module Supersession {
  import opened Basics
  import opened Ordering
  import opened Sorting
  import opened Lineage
  import opened LineagePlan

  datatype Table = Facts | Gaps | Contradictions | Snapshots | Claims | Branches | Bullets

  datatype Key = Key(table: Table, id: Id)

  // The parent is a claim's or branch's snapshot, or a bullet's branch.
  datatype Row = Row(superseded: Option<int>, generation: Id, parent: Id)

  type Rows = map<Key, Row>

  predicate Current(rows: Rows, k: Key) {
    k in rows && rows[k].superseded.None?
  }

  function Parent(k: Key, row: Row): Option<Key> {
    match k.table
    case Claims => Some(Key(Snapshots, row.parent))
    case Branches => Some(Key(Snapshots, row.parent))
    case Bullets => Some(Key(Branches, row.parent))
    case _ => None
  }

  // A current bullet has a current branch; a current branch or claim has a
  // current snapshot.
  predicate Dependable(rows: Rows) {
    forall k | k in rows && Current(rows, k) && Parent(k, rows[k]).Some? :: Current(rows, Parent(k, rows[k]).value)
  }

  function CurrentIds(rows: Rows, table: Table): set<Id> {
    set k | k in rows && k.table == table && Current(rows, k) :: k.id
  }

  // The current rows of a table under one parent.
  function ChildIds(rows: Rows, table: Table, parent: Id): set<Id> {
    set k | k in rows && k.table == table && Current(rows, k) && rows[k].parent == parent :: k.id
  }

  function KeysOf(table: Table, ids: set<Id>): set<Key> {
    set i | i in ids :: Key(table, i)
  }

  // What an update of exactly these rows leaves; superseded ones stay as they are.
  function Marked(rows: Rows, keys: set<Key>, now: int): Rows {
    map k | k in rows :: if k in keys && rows[k].superseded.None? then rows[k].(superseded := Some(now)) else rows[k]
  }

  lemma MarkedTwice(rows: Rows, a: set<Key>, b: set<Key>, now: int)
    ensures Marked(Marked(rows, a, now), b, now) == Marked(rows, a + b, now)
  {
  }

  // Nothing current still hangs on these rows.
  predicate Childless(rows: Rows, keys: set<Key>) {
    forall k | k in rows && Current(rows, k) && Parent(k, rows[k]).Some? :: Parent(k, rows[k]).value !in keys
  }

  /** Rows may go, all of them or any part, once nothing current depends on them. */
  lemma ChildlessMayGo(rows: Rows, keys: set<Key>, part: set<Key>, now: int)
    requires Dependable(rows) && Childless(rows, keys) && part <= keys
    ensures Dependable(Marked(rows, part, now))
  {
    var after := Marked(rows, part, now);
    forall k | k in after && Current(after, k) && Parent(k, after[k]).Some?
      ensures Current(after, Parent(k, after[k]).value)
    {
      assert Current(rows, k);
    }
  }

  datatype Source = Source(fact: Id, item: Id)

  // The current rows of a table under any of these parents.
  function Under(rows: Rows, table: Table, parents: set<Id>): set<Id> {
    set k | k in rows && k.table == table && Current(rows, k) && rows[k].parent in parents :: k.id
  }

  function SwappedKeys(rows: Rows, branches: set<Id>): set<Key> {
    KeysOf(Bullets, Under(rows, Bullets, branches)) + KeysOf(Branches, branches)
  }

  function Generations(rows: Rows, keys: set<Key>): set<Id> {
    set k | k in keys && k in rows :: rows[k].generation
  }

  // What a branch swap reports: exactly the rows it supersedes.
  datatype Swap = Swap(branches: seq<Id>, bullets: seq<Id>, generations: seq<Id>)

  function SwapOf(rows: Rows, branches: set<Id>): Swap {
    Swap(Sorted(branches), Sorted(Under(rows, Bullets, branches)),
         Sorted(Generations(rows, SwappedKeys(rows, branches))))
  }

  // Every named branch is current and its former view is still on record.
  predicate Swappable(rows: Rows, branches: set<Id>) {
    && branches <= CurrentIds(rows, Branches)
    && forall b | b in branches :: Key(Branches, b) in rows && Key(Snapshots, rows[Key(Branches, b)].parent) in rows
  }

  // ---- Row by row ----

  // The rows taken carry the instant, all others are as they were.
  ghost predicate Takes(before: Rows, after: Rows, now: int, taken: Key -> bool) {
    && after.Keys == before.Keys
    && forall k | k in before ::
         after[k] == Row(if taken(k) then Some(now) else before[k].superseded, before[k].generation, before[k].parent)
  }

  ghost predicate OnRecord(rows: Rows, table: Table, id: Id) {
    Key(table, id) in rows && rows[Key(table, id)].superseded.None?
  }

  // A store is in dependency order when each current claim and branch has a
  // current snapshot, and each current bullet a current branch.
  lemma DependableMeans(rows: Rows)
    ensures Dependable(rows) <==> forall k | k in rows && rows[k].superseded.None? ::
              && (k.table == Claims || k.table == Branches ==> OnRecord(rows, Snapshots, rows[k].parent))
              && (k.table == Bullets ==> OnRecord(rows, Branches, rows[k].parent))
  {
  }

  // A branch chosen, or a current bullet on one.
  ghost predicate SwapTakes(rows: Rows, chosen: Id -> bool, k: Key) {
    || (k.table == Branches && chosen(k.id))
    || (k.table == Bullets && k in rows && rows[k].superseded.None? && chosen(rows[k].parent))
  }

  // Every branch chosen is current and its snapshot is still on record.
  ghost predicate MaySwap(rows: Rows, chosen: Id -> bool) {
    forall b | chosen(b) ::
      OnRecord(rows, Branches, b) && Key(Snapshots, rows[Key(Branches, b)].parent) in rows
  }

  // The report lists the branches, their bullets and the generations of both, each in ID order.
  ghost predicate SwapReports(rows: Rows, chosen: Id -> bool, r: Swap) {
    && Ascending(r.branches) && (forall i :: i in r.branches <==> chosen(i))
    && Ascending(r.bullets) && (forall i :: i in r.bullets <==> SwapTakes(rows, chosen, Key(Bullets, i)))
    && Ascending(r.generations)
    && forall g :: g in r.generations <==>
         exists k :: k in rows && SwapTakes(rows, chosen, k) && rows[k].generation == g
  }

  ghost predicate Swapped(before: Rows, after: Rows, now: int, chosen: Id -> bool, r: Option<Swap>) {
    && (r.Some? <==> MaySwap(before, chosen))
    && (r.None? ==> after == before)
    && (r.Some? ==> Takes(before, after, now, k => SwapTakes(before, chosen, k)))
    && (r.Some? ==> SwapReports(before, chosen, r.value))
  }

  lemma MarkedTakes(rows: Rows, keys: set<Key>, now: int, taken: Key -> bool)
    requires forall k | k in rows :: taken(k) <==> k in keys
    requires forall k | k in keys && k in rows :: rows[k].superseded.None?
    ensures Takes(rows, Marked(rows, keys, now), now, taken)
  {
  }

  lemma SwappedMeans(before: Rows, after: Rows, branches: set<Id>, now: int, chosen: Id -> bool, r: Option<Swap>)
    requires forall b :: b in branches <==> chosen(b)
    requires r.Some? <==> Swappable(before, branches)
    requires r.Some? ==> r.value == SwapOf(before, branches)
    requires after == if r.Some? then Marked(before, SwappedKeys(before, branches), now) else before
    ensures Swapped(before, after, now, chosen, r)
  {
    SwappableMeans(before, branches, chosen);
    if r.Some? {
      forall k ensures k in SwappedKeys(before, branches) <==> SwapTakes(before, chosen, k) {
        SwappedKeyMeans(before, branches, chosen, k);
      }
      assert forall k | k in SwappedKeys(before, branches) && k in before :: before[k].superseded.None? by {
        forall k | k in SwappedKeys(before, branches) && k in before ensures before[k].superseded.None? {
          if k.table == Branches { assert k.id in CurrentIds(before, Branches) && k == Key(Branches, k.id); }
        }
      }
      MarkedTakes(before, SwappedKeys(before, branches), now, k => SwapTakes(before, chosen, k));
      SwapListed(before, branches, chosen);
    }
  }

  lemma SwappableMeans(rows: Rows, branches: set<Id>, chosen: Id -> bool)
    requires forall b :: b in branches <==> chosen(b)
    ensures Swappable(rows, branches) <==> MaySwap(rows, chosen)
  {
    forall b ensures b in CurrentIds(rows, Branches) <==> OnRecord(rows, Branches, b) {
      assert b in CurrentIds(rows, Branches) <==> Current(rows, Key(Branches, b));
    }
  }

  lemma SwappedKeyMeans(rows: Rows, branches: set<Id>, chosen: Id -> bool, k: Key)
    requires forall b :: b in branches <==> chosen(b)
    ensures k in SwappedKeys(rows, branches) <==> SwapTakes(rows, chosen, k)
  {
    assert k == Key(k.table, k.id);
  }

  lemma SwapListed(rows: Rows, branches: set<Id>, chosen: Id -> bool)
    requires forall b :: b in branches <==> chosen(b)
    requires forall k :: k in SwappedKeys(rows, branches) <==> SwapTakes(rows, chosen, k)
    ensures SwapReports(rows, chosen, SwapOf(rows, branches))
  {
    var r := SwapOf(rows, branches);
    forall i ensures i in r.branches <==> chosen(i) { assert i in r.branches <==> i in Elements(r.branches); }
    forall i ensures i in r.bullets <==> SwapTakes(rows, chosen, Key(Bullets, i)) {
      assert i in r.bullets <==> i in Elements(r.bullets);
      assert Key(Bullets, i) in SwappedKeys(rows, branches) <==> i in Under(rows, Bullets, branches);
    }
    forall g
      ensures g in r.generations <==> exists k :: k in rows && SwapTakes(rows, chosen, k) && rows[k].generation == g
    {
      assert g in r.generations <==> g in Elements(r.generations);
    }
  }

  class Store {
    var rows: Rows
    var logs: seq<Log>
    var items: seq<Item>
    var sources: set<Source>
    // Every state one statement of the open transaction has left.
    ghost var steps: seq<Rows>

    ghost predicate Kept(from: nat)
      reads this
    {
      from <= |steps| && forall i | from <= i < |steps| :: Dependable(steps[i])
    }

    /** Supersede exactly the listed rows, or none of them: a repeated, missing
        or already superseded ID refuses the whole list. */
    method Mark(table: Table, ids: seq<Id>, now: int) returns (ok: bool)
      modifies this`rows, this`steps
      ensures ok <==> NoRepeats(ids) && forall i | i in ids :: Current(old(rows), Key(table, i))
      ensures rows == if ok then Marked(old(rows), KeysOf(table, Elements(ids)), now) else old(rows)
      ensures ok <==> (forall i, j | 0 <= i < j < |ids| :: ids[i] != ids[j])
                      && forall i | i in ids :: OnRecord(old(rows), table, i)
      ensures ok ==> Takes(old(rows), rows, now, (k: Key) => k.table == table && k.id in ids)
      ensures old(steps) <= steps
      ensures Dependable(old(rows)) && Childless(old(rows), KeysOf(table, Elements(ids))) ==>
        Kept(|old(steps)|) && Dependable(rows)
    {
      ok := MarkListed(table, ids, now);
      if ok { MarkedTakes(old(rows), KeysOf(table, Elements(ids)), now, (k: Key) => k.table == table && k.id in ids); }
    }

    method MarkListed(table: Table, ids: seq<Id>, now: int) returns (ok: bool)
      modifies this`rows, this`steps
      ensures ok <==> NoRepeats(ids) && forall i | i in ids :: Current(old(rows), Key(table, i))
      ensures rows == if ok then Marked(old(rows), KeysOf(table, Elements(ids)), now) else old(rows)
      ensures old(steps) <= steps
      ensures Dependable(old(rows)) && Childless(old(rows), KeysOf(table, Elements(ids))) ==>
        Kept(|old(steps)|) && Dependable(rows)
    {
      if !(forall i, j | 0 <= i < j < |ids| :: ids[i] != ids[j]) { return false; }
      for i := 0 to |ids|
        invariant forall k | k in ids[..i] :: Current(rows, Key(table, k))
      {
        if !Current(rows, Key(table, ids[i])) { return false; }
      }
      assert ids[..|ids|] == ids;
      Update(table, ids, now);
      return true;
    }

    // The UPDATE loop, one row at a time.
    method Update(table: Table, ids: seq<Id>, now: int)
      requires NoRepeats(ids) && forall i | i in ids :: Current(rows, Key(table, i))
      modifies this`rows, this`steps
      ensures rows == Marked(old(rows), KeysOf(table, Elements(ids)), now)
      ensures old(steps) <= steps
      ensures Dependable(old(rows)) && Childless(old(rows), KeysOf(table, Elements(ids))) ==>
        Kept(|old(steps)|) && Dependable(rows)
    {
      ghost var safe := Dependable(rows) && Childless(rows, KeysOf(table, Elements(ids)));
      for i := 0 to |ids|
        invariant rows == MarkedUpTo(old(rows), table, ids, i, now)
        invariant old(steps) <= steps && (safe ==> Kept(|old(steps)|))
      {
        NextMarked(old(rows), table, ids, i, now);
        var key := Key(table, ids[i]);
        rows := rows[key := rows[key].(superseded := Some(now))];
        steps := steps + [rows];
      }
      PrefixMarked(old(rows), table, ids, |ids|, now);
      assert ids[..|ids|] == ids;
    }

    // The current children of the parents, parent by parent.
    method CollectChildren(table: Table, parents: seq<Id>) returns (ids: seq<Id>)
      requires NoRepeats(parents)
      ensures NoRepeats(ids) && Elements(ids) == Under(rows, table, Elements(parents))
    {
      ids := [];
      for i := 0 to |parents|
        invariant NoRepeats(ids) && Elements(ids) == Under(rows, table, Elements(parents[..i]))
      {
        var mine := Sorted(ChildIds(rows, table, parents[i]));
        assert Elements(parents[..i + 1]) == Elements(parents[..i]) + {parents[i]};
        UnderOneMore(rows, table, Elements(parents[..i]), parents[i]);
        AscendingDistinctList(mine);
        DisjointAppend(ids, mine);
        ids := ids + mine;
      }
      assert parents[..|parents|] == parents;
    }

    // Supersede the named current branches with every current bullet on them.
    method SupersedeBranches(selected: seq<Id>, now: int) returns (r: Option<Swap>)
      modifies this`rows, this`steps
      ensures Swapped(old(rows), rows, now, b => b in selected, r)
      ensures r.Some? <==> Swappable(old(rows), Elements(selected))
      ensures r.Some? ==> r.value == SwapOf(old(rows), Elements(selected))
      ensures r.Some? ==> rows == Marked(old(rows), SwappedKeys(old(rows), Elements(selected)), now)
      ensures r.None? ==> rows == old(rows)
      ensures old(steps) <= steps && (Dependable(old(rows)) ==> Kept(|old(steps)|) && Dependable(rows))
    {
      r := SwapSelected(selected, now);
      SwappedMeans(old(rows), rows, Elements(selected), now, b => b in selected, r);
    }

    method SwapSelected(selected: seq<Id>, now: int) returns (r: Option<Swap>)
      modifies this`rows, this`steps
      ensures r.Some? <==> Swappable(old(rows), Elements(selected))
      ensures r.Some? ==> r.value == SwapOf(old(rows), Elements(selected))
      ensures r.Some? ==> rows == Marked(old(rows), SwappedKeys(old(rows), Elements(selected)), now)
      ensures r.None? ==> rows == old(rows)
      ensures old(steps) <= steps && (Dependable(old(rows)) ==> Kept(|old(steps)|) && Dependable(rows))
    {
      var wanted := Elements(selected);
      if !(wanted <= CurrentIds(rows, Branches)) { return None; }
      var branches := Sorted(wanted);
      assert forall b :: b in branches <==> b in Elements(branches);
      AscendingDistinctList(branches);
      if !(forall b | b in branches ::
             Key(Branches, b) in rows && Key(Snapshots, rows[Key(Branches, b)].parent) in rows)
      {
        return None;
      }
      var bullets := CollectChildren(Bullets, branches);
      var generations := Generations(rows, SwappedKeys(rows, wanted));
      assert forall b :: b in bullets <==> b in Elements(bullets);
      var bulletsGone := MarkListed(Bullets, bullets, now);
      label between:
      BranchesChildless(old(rows), wanted, now);
      var branchesGone := MarkListed(Branches, branches, now);
      MarkedTwice(old(rows), KeysOf(Bullets, Under(old(rows), Bullets, wanted)), KeysOf(Branches, wanted), now);
      r := Some(Swap(branches, Sorted(Elements(bullets)), Sorted(generations)));
    }

    method SupersedeDependentBranches(snapshots: set<Id>, now: int) returns (r: Option<Swap>)
      modifies this`rows, this`steps
      ensures Swapped(old(rows), rows, now, b => OnRecord(old(rows), Branches, b)
                      && old(rows)[Key(Branches, b)].parent in snapshots, r)
      ensures r.Some? <==> Swappable(old(rows), Under(old(rows), Branches, snapshots))
      ensures r.Some? ==> r.value == SwapOf(old(rows), Under(old(rows), Branches, snapshots))
      ensures r.Some? ==> rows == Marked(old(rows), SwappedKeys(old(rows), Under(old(rows), Branches, snapshots)), now)
      ensures r.None? ==> rows == old(rows)
      ensures old(steps) <= steps && (Dependable(old(rows)) ==> Kept(|old(steps)|) && Dependable(rows))
    {
      r := SupersedeBranches(Sorted(Under(rows, Branches, snapshots)), now);
      SwappedMeans(old(rows), rows, Under(old(rows), Branches, snapshots), now,
                   b => OnRecord(old(rows), Branches, b) && old(rows)[Key(Branches, b)].parent in snapshots, r);
    }

    method SupersedeCurrentBranches(now: int) returns (r: Option<Swap>)
      modifies this`rows, this`steps
      ensures Swapped(old(rows), rows, now, b => OnRecord(old(rows), Branches, b), r)
      ensures r.Some? <==> Swappable(old(rows), CurrentIds(old(rows), Branches))
      ensures r.Some? ==> r.value == SwapOf(old(rows), CurrentIds(old(rows), Branches))
      ensures r.Some? ==> rows == Marked(old(rows), SwappedKeys(old(rows), CurrentIds(old(rows), Branches)), now)
      ensures r.None? ==> rows == old(rows)
      ensures old(steps) <= steps && (Dependable(old(rows)) ==> Kept(|old(steps)|) && Dependable(rows))
    {
      r := SupersedeBranches(Sorted(CurrentIds(rows, Branches)), now);
      SwappedMeans(old(rows), rows, CurrentIds(old(rows), Branches), now, b => OnRecord(old(rows), Branches, b), r);
    }
  }

  lemma UnderOneMore(rows: Rows, table: Table, parents: set<Id>, p: Id)
    ensures Under(rows, table, parents + {p}) == Under(rows, table, parents) + ChildIds(rows, table, p)
    ensures p !in parents ==> Under(rows, table, parents) !! ChildIds(rows, table, p)
  {
    forall i | i in Under(rows, table, parents) && i in ChildIds(rows, table, p) ensures p in parents {
      assert Key(table, i) in rows;
    }
  }

  lemma AscendingDistinctList(s: seq<Id>)
    requires Ascending(s)
    ensures NoRepeats(s)
  {
    forall i, j | 0 <= i < j < |s| ensures s[i] != s[j] {
      AscendingFrom(s, i, j);
      BeforeIrreflexive(s[i]);
    }
  }

  lemma DisjointAppend(a: seq<Id>, b: seq<Id>)
    requires NoRepeats(a) && NoRepeats(b) && Elements(a) !! Elements(b)
    ensures NoRepeats(a + b) && Elements(a + b) == Elements(a) + Elements(b)
  {
    forall i, j | 0 <= i < |a| && 0 <= j < |b| ensures a[i] != b[j] {
      assert a[i] in Elements(a) && b[j] in Elements(b);
    }
  }

  // With their bullets gone, nothing current hangs on the branches.
  lemma BranchesChildless(rows: Rows, branches: set<Id>, now: int)
    ensures var after := Marked(rows, KeysOf(Bullets, Under(rows, Bullets, branches)), now);
      && Childless(after, KeysOf(Branches, branches))
      && (forall b :: Current(after, Key(Branches, b)) <==> Current(rows, Key(Branches, b)))
      && (Dependable(rows) ==> Dependable(after))
  {
    var gone := KeysOf(Bullets, Under(rows, Bullets, branches));
    var after := Marked(rows, gone, now);
    forall k | k in after && Current(after, k) && Parent(k, after[k]).Some?
      ensures Parent(k, after[k]).value !in KeysOf(Branches, branches)
    {
      assert Current(rows, k) && after[k] == rows[k];
      assert k.table == Bullets && rows[k].parent in branches ==> k.id in Under(rows, Bullets, branches);
    }
    if Dependable(rows) { ChildlessMayGo(rows, gone, gone, now); }
  }

  lemma MarkOne(rows: Rows, table: Table, ids: set<Id>, id: Id, now: int)
    requires Current(rows, Key(table, id)) && id !in ids
    ensures var m, k := Marked(rows, KeysOf(table, ids), now), Key(table, id);
      Current(m, k) && Marked(rows, KeysOf(table, ids + {id}), now) == m[k := m[k].(superseded := Some(now))]
  {
  }

  // The rows after the first i updates.
  function MarkedUpTo(rows: Rows, table: Table, ids: seq<Id>, i: nat, now: int): Rows
    requires i <= |ids|
  {
    if i == 0 then rows
    else
      var before, key := MarkedUpTo(rows, table, ids, i - 1, now), Key(table, ids[i - 1]);
      if key in before then before[key := before[key].(superseded := Some(now))] else before
  }

  lemma {:induction false} PrefixMarked(rows: Rows, table: Table, ids: seq<Id>, i: nat, now: int)
    requires i <= |ids| && NoRepeats(ids) && forall id | id in ids :: Current(rows, Key(table, id))
    ensures MarkedUpTo(rows, table, ids, i, now) == Marked(rows, KeysOf(table, Elements(ids[..i])), now)
  {
    if i > 0 {
      PrefixMarked(rows, table, ids, i - 1, now);
      OneMoreElement(ids, i - 1);
      MarkOne(rows, table, Elements(ids[..i - 1]), ids[i - 1], now);
    } else {
      assert KeysOf(table, Elements(ids[..0])) == {};
      assert Marked(rows, {}, now) == rows;
    }
  }

  lemma OneMoreElement(ids: seq<Id>, i: nat)
    requires i < |ids| && NoRepeats(ids)
    ensures Elements(ids[..i + 1]) == Elements(ids[..i]) + {ids[i]}
    ensures ids[i] in ids && ids[i] !in Elements(ids[..i])
  {
    assert ids[..i + 1] == ids[..i] + [ids[i]];
  }

  lemma NextMarked(rows: Rows, table: Table, ids: seq<Id>, i: nat, now: int)
    requires i < |ids| && NoRepeats(ids) && forall id | id in ids :: Current(rows, Key(table, id))
    ensures var m, k := MarkedUpTo(rows, table, ids, i, now), Key(table, ids[i]);
      k in m && MarkedUpTo(rows, table, ids, i + 1, now) == m[k := m[k].(superseded := Some(now))]
    ensures Dependable(rows) && Childless(rows, KeysOf(table, Elements(ids))) ==>
      Dependable(MarkedUpTo(rows, table, ids, i + 1, now))
  {
    PrefixMarked(rows, table, ids, i, now);
    PrefixMarked(rows, table, ids, i + 1, now);
    OneMoreElement(ids, i);
    MarkOne(rows, table, Elements(ids[..i]), ids[i], now);
    if Dependable(rows) && Childless(rows, KeysOf(table, Elements(ids))) { PrefixMayGo(rows, table, ids, i + 1, now); }
  }

  lemma PrefixMayGo(rows: Rows, table: Table, ids: seq<Id>, i: nat, now: int)
    requires i <= |ids| && Dependable(rows) && Childless(rows, KeysOf(table, Elements(ids)))
    ensures Dependable(Marked(rows, KeysOf(table, Elements(ids[..i])), now))
  {
    ChildlessMayGo(rows, KeysOf(table, Elements(ids)), KeysOf(table, Elements(ids[..i])), now);
  }
}
