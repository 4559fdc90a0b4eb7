// Capturing a correction: one transaction that adds the correcting record and
// supersedes everything that rested on the old reading.
module Correction {
  import opened Basics
  import opened Ordering
  import opened Sorting
  import opened Lineage
  import opened LineagePlan
  import opened Supersession
  import Telemetry

  datatype Evidence = Evidence(id: Id, manual: bool)

  // The fresh IDs one attempt draws.
  datatype Draft = Draft(log: Id, evidence: seq<Evidence>)

  datatype Outcome =
    | Captured(log: Id, facts: seq<Id>, gaps: seq<Id>, contradictions: seq<Id>, claims: seq<Id>, snapshots: seq<Id>,
               swap: Swap, generations: seq<Id>)
    | Missing
    | Integrity
    | Collision
    | RolledBack(interrupted: bool)

  // How each stage of the transaction goes: a database error, or an interrupt.
  type Fates = nat -> Telemetry.Fate

  ghost predicate Undisturbed(fates: Fates) {
    forall t :: fates(t).Fine?
  }

  function Cut(fate: Telemetry.Fate): Outcome {
    RolledBack(fate.InterruptBefore? || fate.InterruptAfter?)
  }

  // ---- What rests on a lineage ----

  // The current facts with evidence from any of these records.
  function FactsOn(rows: Rows, sources: set<Source>, items: seq<Item>, members: set<Id>): set<Id> {
    set s, it | s in sources && it in items && s.item == it.id && it.log in members
                && Current(rows, Key(Facts, s.fact)) :: s.fact
  }

  function DoomedClaims(rows: Rows): set<Id> {
    Under(rows, Claims, CurrentIds(rows, Snapshots))
  }

  function Doomed(rows: Rows, facts: set<Id>): set<Key> {
    KeysOf(Facts, facts) + KeysOf(Gaps, CurrentIds(rows, Gaps))
    + KeysOf(Contradictions, CurrentIds(rows, Contradictions)) + SwappedKeys(rows, CurrentIds(rows, Branches))
    + KeysOf(Claims, DoomedClaims(rows)) + KeysOf(Snapshots, CurrentIds(rows, Snapshots))
  }

  function IdsIn(keys: set<Key>, table: Table): set<Id> {
    set k | k in keys && k.table == table :: k.id
  }

  // Row by row: which rows a correction supersedes.
  predicate Dooms(rows: Rows, facts: set<Id>, k: Key) {
    match k.table
    case Facts => k.id in facts
    case Claims => Current(rows, k) && Current(rows, Key(Snapshots, rows[k].parent))
    case Bullets => Current(rows, k) && Current(rows, Key(Branches, rows[k].parent))
    case _ => Current(rows, k)
  }

  lemma CurrentIn(rows: Rows, k: Key)
    ensures k.id in CurrentIds(rows, k.table) <==> Current(rows, k)
  {
    assert k == Key(k.table, k.id);
  }

  lemma UnderIn(rows: Rows, k: Key, parents: set<Id>)
    ensures k.id in Under(rows, k.table, parents) <==> Current(rows, k) && rows[k].parent in parents
  {
    assert k == Key(k.table, k.id);
  }

  lemma DoomedIs(rows: Rows, facts: set<Id>, k: Key)
    ensures k in Doomed(rows, facts) <==> Dooms(rows, facts, k)
  {
    assert k == Key(k.table, k.id);
    CurrentIn(rows, k);
    UnderIn(rows, k, CurrentIds(rows, Snapshots));
    UnderIn(rows, k, CurrentIds(rows, Branches));
    if Current(rows, k) {
      CurrentIn(rows, Key(Snapshots, rows[k].parent));
      CurrentIn(rows, Key(Branches, rows[k].parent));
    }
  }

  /** The doomed rows are exactly the rows whose state changes, and no fact
      outside the given ones is among them. */
  lemma DoomedIsChanged(rows: Rows, facts: set<Id>, now: int, k: Key)
    requires forall f | f in facts :: Current(rows, Key(Facts, f))
    ensures k in Doomed(rows, facts) <==> k in rows && Marked(rows, Doomed(rows, facts), now)[k] != rows[k]
    ensures k in Doomed(rows, facts) && k.table == Facts ==> k.id in facts
  {
    DoomedIs(rows, facts, k);
    assert k == Key(k.table, k.id);
  }

  // No claim or bullet is current under a superseded parent.
  predicate NoneStranded(rows: Rows) {
    forall k | k in rows && Current(rows, k) && (k.table == Claims || k.table == Bullets) ::
      Current(rows, Parent(k, rows[k]).value)
  }

  /** After a correction nothing that rested on the old reading is current,
      exactly when no claim or bullet was stranded before. */
  lemma NothingCurrentRemains(rows: Rows, facts: set<Id>, now: int)
    ensures (forall k | k in rows && k.table != Facts :: !Current(Marked(rows, Doomed(rows, facts), now), k))
            <==> NoneStranded(rows)
  {
    forall k | k in rows && k.table != Facts
      ensures Current(Marked(rows, Doomed(rows, facts), now), k) <==> Current(rows, k) && !Dooms(rows, facts, k)
    {
      DoomedIs(rows, facts, k);
    }
  }

  lemma DependableStrandsNone(rows: Rows)
    requires Dependable(rows)
    ensures NoneStranded(rows)
  {
  }

  // ---- The ordered supersession ----

  predicate Leaf(t: Table) {
    t != Snapshots && t != Branches
  }

  lemma MarkedCurrent(rows: Rows, keys: set<Key>, now: int)
    ensures forall k :: Current(Marked(rows, keys, now), k) <==> Current(rows, k) && k !in keys
    ensures Dependable(rows) && (forall k | k in keys :: Leaf(k.table)) ==> Dependable(Marked(rows, keys, now))
    ensures (forall k | k in keys :: Leaf(k.table)) ==> Childless(rows, keys)
  {
    if Dependable(rows) && forall k | k in keys :: Leaf(k.table) { ChildlessMayGo(rows, keys, keys, now); }
  }

  // Facts, gaps and contradictions may go first: the branch swap does not see them.
  lemma SwapUnaffected(rows: Rows, keys: set<Key>, now: int)
    requires forall k | k in keys :: k.table == Facts || k.table == Gaps || k.table == Contradictions
    ensures var after := Marked(rows, keys, now);
      && CurrentIds(after, Branches) == CurrentIds(rows, Branches)
      && (forall b :: SwapOf(after, b) == SwapOf(rows, b) && SwappedKeys(after, b) == SwappedKeys(rows, b))
      && (forall b :: Swappable(after, b) <==> Swappable(rows, b))
  {
    var after := Marked(rows, keys, now);
    assert CurrentIds(after, Branches) == CurrentIds(rows, Branches);
    forall b: set<Id>
      ensures SwapOf(after, b) == SwapOf(rows, b) && SwappedKeys(after, b) == SwappedKeys(rows, b)
      ensures Swappable(after, b) <==> Swappable(rows, b)
    {
      assert Under(after, Bullets, b) == Under(rows, Bullets, b);
      assert Generations(after, SwappedKeys(after, b)) == Generations(rows, SwappedKeys(rows, b));
    }
  }

  // Everything but the snapshots.
  function DoomedBelow(rows: Rows, facts: set<Id>): set<Key> {
    KeysOf(Facts, facts) + KeysOf(Gaps, CurrentIds(rows, Gaps))
    + KeysOf(Contradictions, CurrentIds(rows, Contradictions)) + SwappedKeys(rows, CurrentIds(rows, Branches))
    + KeysOf(Claims, DoomedClaims(rows))
  }

  // With claims and branches gone, nothing current hangs on the snapshots.
  lemma SnapshotsChildless(rows: Rows, facts: set<Id>, now: int)
    ensures Childless(Marked(rows, DoomedBelow(rows, facts), now), KeysOf(Snapshots, CurrentIds(rows, Snapshots)))
  {
    var after := Marked(rows, DoomedBelow(rows, facts), now);
    var gone := KeysOf(Snapshots, CurrentIds(rows, Snapshots));
    forall k | k in after && Current(after, k) && Parent(k, after[k]).Some? ensures Parent(k, after[k]).value !in gone {
      assert Current(rows, k) && after[k] == rows[k] && k !in DoomedBelow(rows, facts);
      DoomedIs(rows, facts, k);
      assert k !in KeysOf(Snapshots, CurrentIds(rows, Snapshots)) || k.table == Snapshots;
      CurrentIn(rows, Key(Snapshots, rows[k].parent));
    }
  }

  // Supersede rows nothing can depend on.
  method MarkLeaves(db: Store, table: Table, ids: seq<Id>, now: int)
    requires Leaf(table) && NoRepeats(ids) && forall i | i in ids :: Current(db.rows, Key(table, i))
    modifies db`rows, db`steps
    ensures db.rows == Marked(old(db.rows), KeysOf(table, Elements(ids)), now)
    ensures old(db.steps) <= db.steps
    ensures Dependable(old(db.rows)) ==> db.Kept(|old(db.steps)|) && Dependable(db.rows)
  {
    MarkedCurrent(db.rows, KeysOf(table, Elements(ids)), now);
    var ok := db.Mark(table, ids, now);
  }

  function LocalKeys(facts: set<Id>, gaps: set<Id>, contradictions: set<Id>): set<Key> {
    KeysOf(Facts, facts) + KeysOf(Gaps, gaps) + KeysOf(Contradictions, contradictions)
  }

  // The rows as this transaction found them are what its lists were read from.
  ghost predicate Listed(rows: Rows, table: Table, ids: seq<Id>) {
    NoRepeats(ids) && forall i | i in ids :: Current(rows, Key(table, i))
  }

  method MarkLocal(db: Store, facts: seq<Id>, gaps: seq<Id>, contradictions: seq<Id>, now: int)
    requires Listed(db.rows, Facts, facts) && Listed(db.rows, Gaps, gaps)
    requires Listed(db.rows, Contradictions, contradictions)
    modifies db`rows, db`steps
    ensures db.rows == Marked(old(db.rows), LocalKeys(Elements(facts), Elements(gaps), Elements(contradictions)), now)
    ensures old(db.steps) <= db.steps
    ensures Dependable(old(db.rows)) ==> db.Kept(|old(db.steps)|) && Dependable(db.rows)
  {
    MarkLeaves(db, Facts, facts, now);
    MarkedCurrent(old(db.rows), KeysOf(Facts, Elements(facts)), now);
    MarkLeaves(db, Gaps, gaps, now);
    MarkedTwice(old(db.rows), KeysOf(Facts, Elements(facts)), KeysOf(Gaps, Elements(gaps)), now);
    MarkedCurrent(old(db.rows), KeysOf(Facts, Elements(facts)) + KeysOf(Gaps, Elements(gaps)), now);
    MarkLeaves(db, Contradictions, contradictions, now);
    MarkedTwice(old(db.rows), KeysOf(Facts, Elements(facts)) + KeysOf(Gaps, Elements(gaps)),
      KeysOf(Contradictions, Elements(contradictions)), now);
  }

  lemma OthersUnmarked(rows: Rows, keys: set<Key>, table: Table, ids: seq<Id>, now: int)
    requires Elements(ids) <= CurrentIds(rows, table) && forall k | k in keys :: k.table != table
    ensures forall i | i in ids :: Current(Marked(rows, keys, now), Key(table, i))
  {
    MarkedCurrent(rows, keys, now);
    forall i | i in ids ensures Current(rows, Key(table, i)) { assert i in Elements(ids); }
  }

  // What has gone before the claims.
  function DoomedFirst(rows: Rows, facts: set<Id>): set<Key> {
    LocalKeys(facts, CurrentIds(rows, Gaps), CurrentIds(rows, Contradictions))
    + SwappedKeys(rows, CurrentIds(rows, Branches))
  }

  method MarkClaims(db: Store, ghost before: Rows, ghost facts: set<Id>, claims: seq<Id>, now: int)
    requires NoRepeats(claims) && Elements(claims) == DoomedClaims(before)
    requires db.rows == Marked(before, DoomedFirst(before, facts), now)
    modifies db`rows, db`steps
    ensures db.rows == Marked(before, DoomedBelow(before, facts), now)
    ensures old(db.steps) <= db.steps
    ensures Dependable(old(db.rows)) ==> db.Kept(|old(db.steps)|) && Dependable(db.rows)
  {
    OthersUnmarked(before, DoomedFirst(before, facts), Claims, claims, now);
    MarkLeaves(db, Claims, claims, now);
    MarkedTwice(before, DoomedFirst(before, facts), KeysOf(Claims, Elements(claims)), now);
    assert DoomedFirst(before, facts) + KeysOf(Claims, Elements(claims)) == DoomedBelow(before, facts);
  }

  method MarkSnapshots(db: Store, ghost before: Rows, ghost facts: set<Id>, snapshots: seq<Id>, now: int)
    requires NoRepeats(snapshots) && Elements(snapshots) == CurrentIds(before, Snapshots)
    requires db.rows == Marked(before, DoomedBelow(before, facts), now)
    modifies db`rows, db`steps
    ensures db.rows == Marked(before, Doomed(before, facts), now)
    ensures old(db.steps) <= db.steps
    ensures Dependable(old(db.rows)) ==> db.Kept(|old(db.steps)|) && Dependable(db.rows)
  {
    SnapshotsChildless(before, facts, now);
    OthersUnmarked(before, DoomedBelow(before, facts), Snapshots, snapshots, now);
    var ok := db.Mark(Snapshots, snapshots, now);
    MarkedTwice(before, DoomedBelow(before, facts), KeysOf(Snapshots, Elements(snapshots)), now);
    assert DoomedBelow(before, facts) + KeysOf(Snapshots, Elements(snapshots)) == Doomed(before, facts);
  }

  method SwapBranches(db: Store, ghost before: Rows, ghost facts: set<Id>, now: int) returns (swap: Option<Swap>)
    requires db.rows
             == Marked(before, LocalKeys(facts, CurrentIds(before, Gaps), CurrentIds(before, Contradictions)), now)
    modifies db`rows, db`steps
    ensures swap.Some? <==> Swappable(before, CurrentIds(before, Branches))
    ensures swap.Some? ==> swap.value == SwapOf(before, CurrentIds(before, Branches))
    ensures swap.Some? ==> db.rows == Marked(before, DoomedFirst(before, facts), now)
    ensures old(db.steps) <= db.steps
    ensures Dependable(old(db.rows)) ==> db.Kept(|old(db.steps)|) && Dependable(db.rows)
  {
    ghost var local := LocalKeys(facts, CurrentIds(before, Gaps), CurrentIds(before, Contradictions));
    SwapUnaffected(before, local, now);
    swap := db.SupersedeCurrentBranches(now);
    MarkedTwice(before, local, SwappedKeys(before, CurrentIds(before, Branches)), now);
  }

  // Everything that leaves the current graph, in dependency order; a stage that
  // fails or is interrupted is `cut`, and the transaction goes no further.
  method SupersedeReading(db: Store, facts: seq<Id>, gaps: seq<Id>, contradictions: seq<Id>, claims: seq<Id>,
                          snapshots: seq<Id>, now: int, fates: Fates)
    returns (swap: Option<Swap>, cut: Telemetry.Fate, ghost at: nat)
    requires Listed(db.rows, Facts, facts) && Listed(db.rows, Gaps, gaps)
    requires Listed(db.rows, Contradictions, contradictions)
    requires Elements(gaps) == CurrentIds(db.rows, Gaps)
    requires Elements(contradictions) == CurrentIds(db.rows, Contradictions)
    requires NoRepeats(claims) && Elements(claims) == DoomedClaims(db.rows)
    requires NoRepeats(snapshots) && Elements(snapshots) == CurrentIds(db.rows, Snapshots)
    modifies db`rows, db`steps
    ensures Undisturbed(fates) ==> cut.Fine?
    ensures 2 <= at <= 5 && cut == fates(at) && forall u: nat | 2 <= u < at :: fates(u).Fine?
    ensures cut.Fine? && swap.Some? ==> at == 5
    ensures cut.Fine? ==> (swap.Some? <==> Swappable(old(db.rows), CurrentIds(old(db.rows), Branches)))
    ensures cut.Fine? && swap.Some? ==> swap.value == SwapOf(old(db.rows), CurrentIds(old(db.rows), Branches))
    ensures cut.Fine? && swap.Some? ==> db.rows == Marked(old(db.rows), Doomed(old(db.rows), Elements(facts)), now)
    ensures old(db.steps) <= db.steps
    ensures Dependable(old(db.rows)) ==> db.Kept(|old(db.steps)|)
  {
    ghost var before, fs := db.rows, Elements(facts);
    MarkLocal(db, facts, gaps, contradictions, now);
    cut, swap, at := fates(2), None, 2;
    if !cut.Fine? { return; }
    swap := SwapBranches(db, before, fs, now);
    cut, at := fates(3), 3;
    if swap.None? || !cut.Fine? { return; }
    MarkClaims(db, before, fs, claims, now);
    cut, at := fates(4), 4;
    if !cut.Fine? { return; }
    MarkSnapshots(db, before, fs, snapshots, now);
    cut, at := fates(5), 5;
  }

  // ---- The correcting record ----

  predicate HasLog(logs: seq<Log>, id: Id) {
    exists l | l in logs :: l.id == id
  }

  predicate HasItem(items: seq<Item>, id: Id) {
    exists it | it in items :: it.id == id
  }

  function DraftItems(d: Draft): seq<Item> {
    seq(|d.evidence|, i requires 0 <= i < |d.evidence| => Item(d.evidence[i].id, d.log, d.evidence[i].manual))
  }

  // No stored row has an ID of the draft, and no two rows of the draft share one.
  ghost predicate Unused(logs: seq<Log>, items: seq<Item>, d: Draft) {
    && (forall l | l in logs :: l.id != d.log)
    && (forall i, j | 0 <= i < j < |d.evidence| :: d.evidence[i].id != d.evidence[j].id)
    && forall e, it | e in d.evidence && it in items :: it.id != e.id
  }

  // Insert the record and its evidence under one savepoint.
  method InsertPair(db: Store, target: Id, now: int, d: Draft) returns (ok: bool)
    modifies db`logs, db`items
    ensures ok <==> Unused(old(db.logs), old(db.items), d)
    ensures ok ==>
              db.logs == old(db.logs) + [Log(d.log, Some(target), now)] && db.items == old(db.items) + DraftItems(d)
    ensures !ok ==> db.logs == old(db.logs) && db.items == old(db.items)
  {
    if HasLog(db.logs, d.log) { return false; }
    var logs, items := db.logs, db.items;
    db.logs := db.logs + [Log(d.log, Some(target), now)];
    var drawn := DraftItems(d);
    for i := 0 to |drawn|
      invariant db.logs == old(db.logs) + [Log(d.log, Some(target), now)] && logs == old(db.logs)
      invariant items == old(db.items)
      invariant db.items == old(db.items) + drawn[..i] && DistinctItems(drawn[..i])
      invariant forall k | 0 <= k < i :: !HasItem(old(db.items), drawn[k].id)
    {
      if HasItem(db.items, drawn[i].id) {
        NotUnused(old(db.logs), items, d, i);
        db.logs, db.items := logs, items;
        return false;
      }
      assert forall it | it in db.items :: it.id != drawn[i].id;
      assert forall k | 0 <= k < i :: drawn[k] in db.items;
      assert drawn[..i + 1] == drawn[..i] + [drawn[i]];
      db.items := db.items + [drawn[i]];
    }
    assert drawn[..|drawn|] == drawn;
    forall e | e in d.evidence ensures !HasItem(items, e.id) {
      var k :| 0 <= k < |d.evidence| && d.evidence[k] == e;
      assert drawn[k].id == e.id;
    }
    assert forall i | 0 <= i < |d.evidence| :: d.evidence[i].id == drawn[i].id;
    return true;
  }

  lemma NotUnused(logs: seq<Log>, items: seq<Item>, d: Draft, i: nat)
    requires i < |d.evidence| && HasItem(items + DraftItems(d)[..i], DraftItems(d)[i].id)
    ensures !Unused(logs, items, d)
  {
    var drawn := DraftItems(d);
    var it :| it in items + drawn[..i] && it.id == drawn[i].id;
    if it in items {
      assert d.evidence[i] in d.evidence && HasItem(items, d.evidence[i].id);
    } else {
      var k :| 0 <= k < i && drawn[k] == it;
    }
  }

  ghost predicate Draws(logs: seq<Log>, items: seq<Item>, drafts: nat -> Draft) {
    exists i: nat | i < 3 :: Unused(logs, items, drafts(i))
  }

  // The first of three draws whose IDs are all unused.
  ghost predicate FirstUsable(logs: seq<Log>, items: seq<Item>, drafts: nat -> Draft, d: Draft) {
    exists i: nat | i < 3 :: UsableAt(logs, items, drafts, i) && d == drafts(i)
  }

  ghost predicate UsableAt(logs: seq<Log>, items: seq<Item>, drafts: nat -> Draft, i: nat) {
    Unused(logs, items, drafts(i)) && forall k: nat | k < i :: !Unused(logs, items, drafts(k))
  }

  // Three attempts, each with fresh IDs.
  method InsertWithRetry(db: Store, target: Id, now: int, drafts: nat -> Draft) returns (r: Option<Draft>)
    modifies db`logs, db`items
    ensures r.Some? <==> Draws(old(db.logs), old(db.items), drafts)
    ensures r.Some? ==> FirstUsable(old(db.logs), old(db.items), drafts, r.value)
    ensures r.Some? ==> db.logs == old(db.logs) + [Log(r.value.log, Some(target), now)]
    ensures r.Some? ==> db.items == old(db.items) + DraftItems(r.value)
    ensures r.None? ==> db.logs == old(db.logs) && db.items == old(db.items)
  {
    for i := 0 to 3
      invariant db.logs == old(db.logs) && db.items == old(db.items)
      invariant forall k: nat | k < i :: !Unused(db.logs, db.items, drafts(k))
    {
      var ok := InsertPair(db, target, now, drafts(i));
      if ok {
        assert UsableAt(old(db.logs), old(db.items), drafts, i);
        return Some(drafts(i));
      }
    }
    return None;
  }

  function Corrected(m: Logs, target: Id, id: Id, now: int): Logs {
    m[id := Log(id, Some(target), now)]
  }

  lemma RootLifts(m: Logs, target: Id, id: Id, now: int, x: Id, r: Id)
    requires RootOf(m, x, r) && id !in m
    ensures RootOf(Corrected(m, target, id, now), x, r)
  {
    var after := Corrected(m, target, id, now);
    var p :| WalksTo(m, p, x, r);
    assert WalksTo(after, p, x, r) by {
      forall i | 0 <= i < |p| ensures p[i] in after && after[p[i]] == m[p[i]] {}
    }
  }

  lemma OldRootsKept(m: Logs, target: Id, id: Id, now: int, x: Id, r: Id)
    requires AllRooted(m) && id !in m && x in m
    ensures RootOf(m, x, r) <==> RootOf(Corrected(m, target, id, now), x, r)
  {
    if RootOf(m, x, r) {
      RootLifts(m, target, id, now, x, r);
    } else if RootOf(Corrected(m, target, id, now), x, r) {
      var s :| RootOf(m, x, s);
      RootLifts(m, target, id, now, x, s);
      RootUnique(Corrected(m, target, id, now), x, r, s);
    }
  }

  lemma NewRoot(m: Logs, target: Id, id: Id, now: int, r: Id)
    requires AllRooted(m) && id !in m && target in m
    ensures RootOf(Corrected(m, target, id, now), id, r) <==> RootOf(m, target, r)
  {
    var after := Corrected(m, target, id, now);
    OldRootsKept(m, target, id, now, target, r);
    StepRoot(after, id, r);
    if RootOf(after, id, r) { NextExists(after, id, r); }
  }

  /** A correction lengthens one chain and leaves every other as it was: the
      lineages stay sound and every old record keeps its root. */
  lemma CorrectionKeepsLineages(m: Logs, target: Id, id: Id, now: int)
    requires Sound(m) && target in m && id !in m
    ensures Sound(Corrected(m, target, id, now))
    ensures forall x, r | x in m :: RootOf(m, x, r) <==> RootOf(Corrected(m, target, id, now), x, r)
    ensures forall r :: RootOf(Corrected(m, target, id, now), id, r) <==> RootOf(m, target, r)
  {
    var after := Corrected(m, target, id, now);
    SoundIsRooted(m);
    forall x, r | x in m ensures RootOf(m, x, r) <==> RootOf(after, x, r) { OldRootsKept(m, target, id, now, x, r); }
    forall r ensures RootOf(after, id, r) <==> RootOf(m, target, r) { NewRoot(m, target, id, now, r); }
    forall x | x in after ensures exists r :: RootOf(after, x, r) {
      var kin := if x == id then target else x;
      var r :| RootOf(m, kin, r);
      assert RootOf(after, x, r);
    }
    RootedIsSound(after);
  }

  // ---- The transaction ----

  // The records whose chain ends where this one's does.
  ghost function LineageOf(m: Logs, x: Id): set<Id> {
    set y | y in m && exists r :: RootOf(m, x, r) && RootOf(m, y, r)
  }

  lemma ContextIsLineage(m: Logs, items: set<Item>, x: Id, contexts: seq<Context>)
    requires Selects(m, items, x, contexts)
    ensures (set l | l in contexts[0].members :: l.id) == LineageOf(m, x)
  {
    var c := contexts[0];
    assert IsContext(m, items, c) && InLineage(m, m[x], c.root);
    forall y | y in LineageOf(m, x) ensures m[y] in c.members && m[y].id == y {
      var r :| RootOf(m, x, r) && RootOf(m, y, r);
      RootUnique(m, x, r, c.root.id);
      assert InLineage(m, m[y], c.root);
    }
    forall l | l in c.members ensures l.id in LineageOf(m, x) {
      assert InLineage(m, l, c.root);
    }
  }

  // What a committed correction did: the rows gone, and the lists that report them.
  ghost predicate Reports(r: Outcome, rows: Rows, facts: set<Id>) {
    && r.Captured?
    && r.facts == Sorted(facts) && r.gaps == Sorted(CurrentIds(rows, Gaps))
    && r.contradictions == Sorted(CurrentIds(rows, Contradictions)) && r.claims == Sorted(DoomedClaims(rows))
    && r.snapshots == Sorted(CurrentIds(rows, Snapshots)) && r.swap == SwapOf(rows, CurrentIds(rows, Branches))
    && r.generations == Sorted(Generations(rows, Doomed(rows, facts)))
  }

  /** Every list of the report names exactly the superseded rows of its table. */
  lemma ReportIsExact(r: Outcome, rows: Rows, facts: set<Id>)
    requires Reports(r, rows, facts)
    ensures Elements(r.facts) == IdsIn(Doomed(rows, facts), Facts)
    ensures Elements(r.gaps) == IdsIn(Doomed(rows, facts), Gaps)
    ensures Elements(r.contradictions) == IdsIn(Doomed(rows, facts), Contradictions)
    ensures Elements(r.claims) == IdsIn(Doomed(rows, facts), Claims)
    ensures Elements(r.snapshots) == IdsIn(Doomed(rows, facts), Snapshots)
    ensures Elements(r.swap.branches) == IdsIn(Doomed(rows, facts), Branches)
    ensures Elements(r.swap.bullets) == IdsIn(Doomed(rows, facts), Bullets)
  {
    DoomedTable(rows, facts, Facts);
    DoomedTable(rows, facts, Gaps);
    DoomedTable(rows, facts, Contradictions);
    DoomedTable(rows, facts, Claims);
    DoomedTable(rows, facts, Snapshots);
    DoomedTable(rows, facts, Branches);
    DoomedTable(rows, facts, Bullets);
  }

  function DoomedIds(rows: Rows, facts: set<Id>, table: Table): set<Id> {
    match table
    case Facts => facts
    case Claims => DoomedClaims(rows)
    case Bullets => Under(rows, Bullets, CurrentIds(rows, Branches))
    case _ => CurrentIds(rows, table)
  }

  lemma DoomedTable(rows: Rows, facts: set<Id>, table: Table)
    ensures IdsIn(Doomed(rows, facts), table) == DoomedIds(rows, facts, table)
  {
    forall i ensures i in IdsIn(Doomed(rows, facts), table) <==> i in DoomedIds(rows, facts, table) {
      var k := Key(table, i);
      assert i in IdsIn(Doomed(rows, facts), table) <==> k in Doomed(rows, facts);
      DoomedIs(rows, facts, k);
      CurrentIn(rows, k);
      UnderIn(rows, k, CurrentIds(rows, Snapshots));
      UnderIn(rows, k, CurrentIds(rows, Branches));
      if Current(rows, k) {
        CurrentIn(rows, Key(Snapshots, rows[k].parent));
        CurrentIn(rows, Key(Branches, rows[k].parent));
      }
    }
  }

  // Stored rows under their primary keys, every chain and every reference whole.
  ghost predicate Sane(logs: seq<Log>, items: seq<Item>) {
    DistinctLogs(logs) && Sound(ById(logs)) && DistinctItems(items) && forall it | it in items :: it.log in ById(logs)
  }

  // The state a committed correction of `logId` leaves behind, with the first usable draft in it.
  ghost predicate Committed(r: Outcome, logId: Id, now: int, facts: set<Id>, rows: Rows, logs: seq<Log>,
                            items: seq<Item>, drafts: nat -> Draft, after: Rows, longer: seq<Log>, more: seq<Item>)
  {
    && Reports(r, rows, facts) && after == Marked(rows, Doomed(rows, facts), now)
    && exists d :: FirstUsable(logs, items, drafts, d) && r.log == d.log
                   && Inserted(d, logId, now, logs, items, longer, more)
  }

  // One record more, correcting `logId`, and the evidence drawn with it.
  ghost predicate Inserted(d: Draft, logId: Id, now: int, logs: seq<Log>, items: seq<Item>, longer: seq<Log>,
                           more: seq<Item>)
  {
    && longer == logs + [Log(d.log, Some(logId), now)] && (forall l | l in logs :: l.id != d.log)
    && |more| == |items| + |d.evidence| && more[..|items|] == items
    && forall i | 0 <= i < |d.evidence| ::
         more[|items| + i] == Item(d.evidence[i].id, d.log, d.evidence[i].manual)
  }

  // The current facts with evidence from any record of the corrected lineage.
  ghost function FactsResting(rows: Rows, sources: set<Source>, items: seq<Item>, logs: seq<Log>, logId: Id): set<Id>
    requires DistinctLogs(logs)
  {
    FactsOn(rows, sources, items, LineageOf(ById(logs), logId))
  }

  // The facts the correction takes out of the current graph.
  method LineageFacts(rows: Rows, sources: set<Source>, items: seq<Item>, logs: seq<Log>, logId: Id)
    returns (r: Option<set<Id>>)
    requires HasLog(logs, logId)
    ensures Traced(r, rows, sources, items, logs, logId)
  {
    var plan := PlanLineages(logs, items, Some(logId));
    if !plan.Ok? { return None; }
    ContextFacts(rows, sources, items, logs, logId, plan.contexts);
    var members := set l | l in plan.contexts[0].members :: l.id;
    r := Some(FactsOn(rows, sources, items, members));
  }

  lemma ContextFacts(rows: Rows, sources: set<Source>, items: seq<Item>, logs: seq<Log>, logId: Id,
                     contexts: seq<Context>)
    requires DistinctLogs(logs) && Selects(ById(logs), Elements(items), logId, contexts)
    ensures var facts := FactsOn(rows, sources, items, set l | l in contexts[0].members :: l.id);
            facts == FactsResting(rows, sources, items, logs, logId) && AllCurrent(rows, facts)
  {
    ContextIsLineage(ById(logs), Elements(items), logId, contexts);
  }

  // ---- What a committed correction comes to, row by row ----

  // Some evidence of the fact is of a record whose chain ends where that of `logId` does.
  ghost predicate RestsOn(sources: set<Source>, items: seq<Item>, m: Logs, logId: Id, fact: Id) {
    exists s, it, root ::
      && s in sources && it in items && s.fact == fact && s.item == it.id
      && RootOf(m, it.log, root) && RootOf(m, logId, root)
  }

  // A current row that the correction supersedes: a fact that rests on the
  // lineage; every gap, contradiction, snapshot and branch; and the claims and
  // bullets under a current snapshot or branch.
  ghost predicate Gone(rows: Rows, sources: set<Source>, items: seq<Item>, m: Logs, logId: Id, k: Key) {
    && k in rows && rows[k].superseded.None?
    && match k.table
       case Facts => RestsOn(sources, items, m, logId, k.id)
       case Claims => Key(Snapshots, rows[k].parent) in rows && rows[Key(Snapshots, rows[k].parent)].superseded.None?
       case Bullets => Key(Branches, rows[k].parent) in rows && rows[Key(Branches, rows[k].parent)].superseded.None?
       case _ => true
  }

  ghost predicate Lists(ids: seq<Id>, table: Table, gone: Key -> bool) {
    Ascending(ids) && forall i :: i in ids <==> gone(Key(table, i))
  }

  // The rows gone carry the instant, the others are as they were, and the report
  // lists exactly the rows gone and the generations they were of.
  ghost predicate RowsGone(rows: Rows, after: Rows, now: int, gone: Key -> bool, r: Outcome)
    requires r.Captured?
  {
    && Takes(rows, after, now, gone) && Lists(r.facts, Facts, gone) && Lists(r.gaps, Gaps, gone)
    && Lists(r.contradictions, Contradictions, gone)
    && Lists(r.claims, Claims, gone) && Lists(r.snapshots, Snapshots, gone)
    && Lists(r.swap.branches, Branches, gone) && Lists(r.swap.bullets, Bullets, gone)
    && Ascending(r.generations)
    && forall g :: g in r.generations <==> exists k :: k in rows && gone(k) && rows[k].generation == g
  }

  ghost predicate ReadingGone(rows: Rows, after: Rows, sources: set<Source>, items: seq<Item>, logs: seq<Log>,
                              logId: Id, now: int, r: Outcome)
    requires r.Captured?
  {
    && DistinctLogs(logs) && Sound(ById(logs))
    && RowsGone(rows, after, now, k => Gone(rows, sources, items, ById(logs), logId, k), r)
  }

  lemma FactsRest(rows: Rows, sources: set<Source>, items: seq<Item>, logs: seq<Log>, logId: Id, f: Id)
    requires Sane(logs, items) || (DistinctLogs(logs) && Sound(ById(logs)))
    ensures f in FactsResting(rows, sources, items, logs, logId)
            <==> Current(rows, Key(Facts, f)) && RestsOn(sources, items, ById(logs), logId, f)
  {
    var m := ById(logs);
    if s, it, root :| s in sources && it in items && s.fact == f && s.item == it.id
                      && RootOf(m, it.log, root) && RootOf(m, logId, root)
    {
      assert it.log in LineageOf(m, logId);
    }
  }

  lemma DoomedIsGone(rows: Rows, sources: set<Source>, items: seq<Item>, logs: seq<Log>, logId: Id, k: Key)
    requires DistinctLogs(logs) && Sound(ById(logs))
    ensures k in Doomed(rows, FactsResting(rows, sources, items, logs, logId))
            <==> Gone(rows, sources, items, ById(logs), logId, k)
  {
    var facts := FactsResting(rows, sources, items, logs, logId);
    DoomedIs(rows, facts, k);
    if k.table == Facts {
      assert k == Key(Facts, k.id);
      FactsRest(rows, sources, items, logs, logId, k.id);
    }
  }

  lemma Listing(rows: Rows, facts: set<Id>, table: Table, gone: Key -> bool, ids: seq<Id>)
    requires forall k :: k in Doomed(rows, facts) <==> gone(k)
    requires ids == Sorted(DoomedIds(rows, facts, table))
    ensures Lists(ids, table, gone)
  {
    DoomedTable(rows, facts, table);
    forall i ensures i in ids <==> gone(Key(table, i)) {
      assert i in ids <==> i in Elements(ids);
      assert i in IdsIn(Doomed(rows, facts), table) <==> Key(table, i) in Doomed(rows, facts);
    }
  }

  lemma GenerationsListed(rows: Rows, keys: set<Key>, gone: Key -> bool, ids: seq<Id>)
    requires (forall k :: k in keys <==> gone(k)) && ids == Sorted(Generations(rows, keys))
    ensures forall g :: g in ids <==> exists k :: k in rows && gone(k) && rows[k].generation == g
  {
    forall g ensures g in ids <==> exists k :: k in rows && gone(k) && rows[k].generation == g {
      assert g in ids <==> g in Elements(ids);
    }
  }

  lemma ReportLists(r: Outcome, rows: Rows, after: Rows, now: int, facts: set<Id>, gone: Key -> bool)
    requires Reports(r, rows, facts) && after == Marked(rows, Doomed(rows, facts), now)
    requires forall k :: k in Doomed(rows, facts) <==> gone(k)
    requires forall k | gone(k) :: k in rows && rows[k].superseded.None?
    ensures RowsGone(rows, after, now, gone, r)
  {
    Listing(rows, facts, Facts, gone, r.facts);
    Listing(rows, facts, Gaps, gone, r.gaps);
    Listing(rows, facts, Contradictions, gone, r.contradictions);
    Listing(rows, facts, Claims, gone, r.claims);
    Listing(rows, facts, Snapshots, gone, r.snapshots);
    Listing(rows, facts, Branches, gone, r.swap.branches);
    Listing(rows, facts, Bullets, gone, r.swap.bullets);
    GenerationsListed(rows, Doomed(rows, facts), gone, r.generations);
  }

  predicate AllCurrent(rows: Rows, facts: set<Id>) {
    forall f | f in facts :: Current(rows, Key(Facts, f))
  }

  // The snapshot of every current branch is still on record.
  ghost predicate ViewsKept(rows: Rows) {
    forall k | k in rows && k.table == Branches && rows[k].superseded.None? :: Key(Snapshots, rows[k].parent) in rows
  }

  lemma ViewsKeptMeans(rows: Rows)
    ensures Swappable(rows, CurrentIds(rows, Branches)) <==> ViewsKept(rows)
  {
    forall k | k in rows && k.table == Branches && rows[k].superseded.None?
      ensures k.id in CurrentIds(rows, Branches) && k == Key(Branches, k.id)
    {
      CurrentIn(rows, k);
    }
  }

  // The first stage that did not go well is `t`, and it was an interrupt if the outcome says so.
  ghost predicate StoppedAt(fates: Fates, t: nat, r: Outcome) {
    && r.RolledBack? && !fates(t).Fine? && (forall u: nat | u < t :: fates(u).Fine?)
    && (r.interrupted <==> !fates(t).Error?)
  }

  // An interrupt lands in COMMIT once it has taken effect, or after it.
  ghost predicate CutAfterCommit(fates: Fates) {
    fates(6).InterruptAfter? || fates(7).InterruptBefore? || fates(7).InterruptAfter?
  }

  // What the transaction may come to, besides being rolled back on the way.
  ghost predicate Decided(r: Outcome, logs: seq<Log>, items: seq<Item>, rows: Rows, drafts: nat -> Draft) {
    && (r.Collision? ==> !Draws(logs, items, drafts))
    && (r.Captured? ==> Draws(logs, items, drafts) && ViewsKept(rows))
  }

  /** One transaction: the correcting record goes in, and everything resting on
      the old reading stops being current, or nothing changes at all, wherever an
      error or an interrupt lands. An interrupt after the commit cancels only the
      report. */
  method CaptureCorrection(db: Store, logId: Id, now: int, drafts: nat -> Draft, fates: Fates)
    returns (r: Outcome, cancelled: bool)
    modifies db
    ensures !r.Captured? ==> db.rows == old(db.rows) && db.logs == old(db.logs) && db.items == old(db.items)
    ensures db.sources == old(db.sources)
    ensures r.Captured? ==> DistinctLogs(old(db.logs)) && Sound(ById(old(db.logs)))
    ensures r.Captured? ==>
      var facts := FactsResting(old(db.rows), db.sources, old(db.items), old(db.logs), logId);
      Committed(r, logId, now, facts, old(db.rows), old(db.logs), old(db.items), drafts, db.rows, db.logs, db.items)
    ensures r.Captured? ==>
      ReadingGone(old(db.rows), db.rows, old(db.sources), old(db.items), old(db.logs), logId, now, r)
    ensures Decided(r, old(db.logs), old(db.items), old(db.rows), drafts)
    ensures cancelled <==> r.Captured? && CutAfterCommit(fates)
    ensures if r.RolledBack? then exists t: nat :: t <= 6 && StoppedAt(fates, t, r)
            else (r.Missing? <==> forall l | l in old(db.logs) :: l.id != logId)
    ensures !r.RolledBack? && !r.Missing? && Sane(old(db.logs), old(db.items)) ==>
      (r.Captured? <==>
        Draws(old(db.logs), old(db.items), drafts) && ViewsKept(old(db.rows)))
    ensures Undisturbed(fates) ==> !cancelled
    ensures old(db.steps) <= db.steps && (Dependable(old(db.rows)) ==> db.Kept(|old(db.steps)|))
  {
    if !fates(0).Fine? {
      r, cancelled := Cut(fates(0)), false;
      assert StoppedAt(fates, 0, r);
    } else if !HasLog(db.logs, logId) {
      r, cancelled := Missing, false;
    } else {
      var facts := LineageFacts(db.rows, db.sources, db.items, db.logs, logId);
      r, cancelled := CorrectTarget(db, logId, now, facts, drafts, fates);
      if r.Captured? {
        CapturedRows(r, old(db.rows), db.rows, old(db.sources), old(db.items), old(db.logs), logId, now);
      }
    }
  }

  // What the lineage of the corrected record is found to come to.
  ghost predicate Traced(facts: Option<set<Id>>, rows: Rows, sources: set<Source>, items: seq<Item>, logs: seq<Log>,
                         logId: Id)
  {
    && (facts.Some? ==> DistinctLogs(logs) && Sound(ById(logs)) && AllCurrent(rows, facts.value))
    && (facts.Some? ==> facts.value == FactsResting(rows, sources, items, logs, logId))
    && (Sane(logs, items) ==> facts.Some?)
  }

  lemma CapturedRows(r: Outcome, rows: Rows, after: Rows, sources: set<Source>, items: seq<Item>, logs: seq<Log>,
                     logId: Id, now: int)
    requires DistinctLogs(logs) && Sound(ById(logs)) && r.Captured?
    requires var facts := FactsResting(rows, sources, items, logs, logId);
             Reports(r, rows, facts) && after == Marked(rows, Doomed(rows, facts), now)
    ensures ReadingGone(rows, after, sources, items, logs, logId, now, r)
  {
    forall k
      ensures k in Doomed(rows, FactsResting(rows, sources, items, logs, logId))
              <==> Gone(rows, sources, items, ById(logs), logId, k)
    {
      DoomedIsGone(rows, sources, items, logs, logId, k);
    }
    ReportLists(r, rows, after, now, FactsResting(rows, sources, items, logs, logId),
                k => Gone(rows, sources, items, ById(logs), logId, k));
  }

  // The same once the corrected record is found and its lineage traced.
  method CorrectTarget(db: Store, logId: Id, now: int, facts: Option<set<Id>>, drafts: nat -> Draft, fates: Fates)
    returns (r: Outcome, cancelled: bool)
    requires Traced(facts, db.rows, db.sources, db.items, db.logs, logId)
    modifies db
    ensures !r.Captured? ==> db.rows == old(db.rows) && db.logs == old(db.logs) && db.items == old(db.items)
    ensures db.sources == old(db.sources) && !r.Missing?
    ensures r.Captured? ==> DistinctLogs(old(db.logs)) && Sound(ById(old(db.logs)))
    ensures r.Captured? ==>
      var facts := FactsResting(old(db.rows), db.sources, old(db.items), old(db.logs), logId);
      Committed(r, logId, now, facts, old(db.rows), old(db.logs), old(db.items), drafts, db.rows, db.logs, db.items)
    ensures Decided(r, old(db.logs), old(db.items), old(db.rows), drafts)
    ensures cancelled <==> r.Captured? && CutAfterCommit(fates)
    ensures !r.RolledBack? && Sane(old(db.logs), old(db.items)) ==>
      (r.Captured? <==>
        Draws(old(db.logs), old(db.items), drafts) && ViewsKept(old(db.rows)))
    ensures Undisturbed(fates) ==> !r.RolledBack? && !cancelled
    ensures r.RolledBack? && fates(0).Fine? ==> exists t: nat :: t <= 6 && StoppedAt(fates, t, r)
    ensures old(db.steps) <= db.steps && (Dependable(old(db.rows)) ==> db.Kept(|old(db.steps)|))
  {
    if facts.None? {
      r, cancelled := Integrity, false;
    } else {
      r, cancelled := Replace(db, logId, now, facts.value, drafts, fates);
    }
  }

  // The body of the transaction, its commit or its rollback.
  method Replace(db: Store, logId: Id, now: int, facts: set<Id>, drafts: nat -> Draft, fates: Fates)
    returns (r: Outcome, cancelled: bool)
    requires AllCurrent(db.rows, facts)
    modifies db`rows, db`steps, db`logs, db`items
    ensures r.Captured? || r.Integrity? || r.Collision? || r.RolledBack?
    ensures Decided(r, old(db.logs), old(db.items), old(db.rows), drafts)
    ensures cancelled <==> r.Captured? && CutAfterCommit(fates)
    ensures !r.RolledBack? ==>
      (r.Captured? <==>
        Draws(old(db.logs), old(db.items), drafts) && ViewsKept(old(db.rows)))
    ensures r.Captured? ==>
      Committed(r, logId, now, facts, old(db.rows), old(db.logs), old(db.items), drafts, db.rows, db.logs, db.items)
    ensures !r.Captured? ==> db.rows == old(db.rows) && db.logs == old(db.logs) && db.items == old(db.items)
    ensures Undisturbed(fates) ==> !r.RolledBack? && !cancelled
    ensures r.RolledBack? && fates(0).Fine? ==> exists t: nat :: t <= 6 && StoppedAt(fates, t, r)
    ensures old(db.steps) <= db.steps && (Dependable(old(db.rows)) ==> db.Kept(|old(db.steps)|))
  {
    var rows, logs, items := db.rows, db.logs, db.items;
    var ran := Statements(db, logId, now, facts, drafts, fates);
    r, cancelled := Close(db, ran, rows, logs, items, fates);
    if fates(0).Fine? && ran.Captured? && r.RolledBack? { assert StoppedAt(fates, 6, r); }
  }

  // COMMIT if the statements ran to their end and it succeeds, ROLLBACK otherwise.
  method Close(db: Store, ran: Outcome, rows: Rows, logs: seq<Log>, items: seq<Item>, fates: Fates)
    returns (r: Outcome, cancelled: bool)
    modifies db`rows, db`logs, db`items
    ensures r == ran || (ran.Captured? && !fates(6).Fine? && r == RolledBack(!fates(6).Error?))
    ensures ran.Captured? ==> (r.RolledBack? <==> fates(6).Error? || fates(6).InterruptBefore?)
    ensures cancelled <==> r.Captured? && CutAfterCommit(fates)
    ensures r.Captured? ==> db.rows == old(db.rows) && db.logs == old(db.logs) && db.items == old(db.items)
    ensures !r.Captured? ==> db.rows == rows && db.logs == logs && db.items == items
  {
    r, cancelled := ran, false;
    if r.Captured? && (fates(6).Error? || fates(6).InterruptBefore?) { r := Cut(fates(6)); }
    if r.Captured? {
      cancelled := fates(6).InterruptAfter? || fates(7).InterruptBefore? || fates(7).InterruptAfter?;
    } else {
      db.rows, db.logs, db.items := rows, logs, items;
    }
  }

  // Everything between BEGIN and COMMIT.
  method Statements(db: Store, logId: Id, now: int, facts: set<Id>, drafts: nat -> Draft, fates: Fates)
    returns (r: Outcome)
    requires AllCurrent(db.rows, facts)
    modifies db`rows, db`steps, db`logs, db`items
    ensures r.Captured? || r.Integrity? || r.Collision? || r.RolledBack?
    ensures !r.RolledBack? ==> (r.Collision? <==> !Draws(old(db.logs), old(db.items), drafts))
    ensures !r.RolledBack? ==>
      (r.Captured? <==>
        Draws(old(db.logs), old(db.items), drafts) && ViewsKept(old(db.rows)))
    ensures r.Captured? ==>
      Committed(r, logId, now, facts, old(db.rows), old(db.logs), old(db.items), drafts, db.rows, db.logs, db.items)
    ensures Undisturbed(fates) ==> !r.RolledBack?
    ensures r.RolledBack? && fates(0).Fine? ==> exists t: nat :: t <= 5 && StoppedAt(fates, t, r)
    ensures r.Captured? && fates(0).Fine? ==> forall t: nat | t < 6 :: fates(t).Fine?
    ensures old(db.steps) <= db.steps && (Dependable(old(db.rows)) ==> db.Kept(|old(db.steps)|))
  {
    var gone, gaps, contradictions, claims, snapshots := Gather(db, facts);
    var generations := Generations(db.rows, Doomed(db.rows, facts));
    ViewsKeptMeans(db.rows);
    var draft := InsertWithRetry(db, logId, now, drafts);
    if !fates(1).Fine? {
      assert fates(0).Fine? ==> StoppedAt(fates, 1, Cut(fates(1)));
      return Cut(fates(1));
    }
    if draft.None? { return Collision; }
    ghost var at;
    var swap, cut;
    swap, cut, at := SupersedeReading(db, gone, gaps, contradictions, claims, snapshots, now, fates);
    if !cut.Fine? {
      assert fates(0).Fine? ==> StoppedAt(fates, at, Cut(cut));
      return Cut(cut);
    }
    if swap.None? { return Integrity; }
    r := Captured(draft.value.log, gone, gaps, contradictions, Sorted(Elements(claims)), snapshots, swap.value,
                  Sorted(generations));
  }

  // The ID lists of everything that is to go, read before anything is written.
  method Gather(db: Store, facts: set<Id>)
    returns (gone: seq<Id>, gaps: seq<Id>, contradictions: seq<Id>, claims: seq<Id>, snapshots: seq<Id>)
    requires AllCurrent(db.rows, facts)
    ensures gone == Sorted(facts) && Listed(db.rows, Facts, gone)
    ensures gaps == Sorted(CurrentIds(db.rows, Gaps)) && Listed(db.rows, Gaps, gaps)
    ensures contradictions == Sorted(CurrentIds(db.rows, Contradictions))
    ensures Listed(db.rows, Contradictions, contradictions)
    ensures snapshots == Sorted(CurrentIds(db.rows, Snapshots)) && NoRepeats(snapshots)
    ensures NoRepeats(claims) && Elements(claims) == DoomedClaims(db.rows)
  {
    gone, gaps := Sorted(facts), Sorted(CurrentIds(db.rows, Gaps));
    contradictions, snapshots := Sorted(CurrentIds(db.rows, Contradictions)), Sorted(CurrentIds(db.rows, Snapshots));
    SortedListed(db.rows, Facts, facts);
    SortedListed(db.rows, Gaps, CurrentIds(db.rows, Gaps));
    SortedListed(db.rows, Contradictions, CurrentIds(db.rows, Contradictions));
    SortedListed(db.rows, Snapshots, CurrentIds(db.rows, Snapshots));
    claims := db.CollectChildren(Claims, snapshots);
  }

  lemma SortedListed(rows: Rows, table: Table, ids: set<Id>)
    requires forall i | i in ids :: Current(rows, Key(table, i))
    ensures Listed(rows, table, Sorted(ids)) && Elements(Sorted(ids)) == ids
  {
    AscendingDistinctList(Sorted(ids));
    forall i | i in Sorted(ids) ensures Current(rows, Key(table, i)) { assert i in Elements(Sorted(ids)); }
  }
}
