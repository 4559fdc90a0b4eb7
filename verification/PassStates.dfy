// Every directory state a start-up pass can be in, whatever fails or interrupts
// it: which copies of a set no such state loses, and exactly when a crash can.
module PassStates {
  import opened Disk
  import opened ManagedSet
  import opened Directory
  import opened Publish
  import opened Tidy

  // ---- The steps of a pass that found `d0` ----

  // The entries it removes: plain candidates, and complete rollbacks beside a complete final set.
  ghost predicate Doomed(kind: Kind, d0: State, n: Name) {
    && n in d0.entries
    && match n
       case Candidate(_, _) => SafeTree(Found(d0, n))
       case Rollback(id, k) => Superseded(kind, View(d0), id, k)
       case Final(_) => false
       case Other(_) => false
  }

  ghost predicate AsFound(d0: State, d: State, n: Name) {
    n in d0.entries && n in d.entries && d.entries[n] == d0.entries[n]
  }

  function Promotion(id: string, k: string): Op {
    Move(Rollback(id, k), Final(id))
  }

  ghost predicate Promotable(kind: Kind, d0: State, a: State, id: string, k: string) {
    Promotes(kind, View(d0), id, k) && AsFound(d0, a, Rollback(id, k)) && Final(id) !in a.entries
  }

  ghost predicate Removes(kind: Kind, d0: State, a: State, b: State, n: Name) {
    Doomed(kind, d0, n) && AsFound(d0, a, n) && Shrunk(a, b, n)
  }

  ghost predicate PassStep(kind: Kind, syncs: bool, d0: State, a: State, b: State) {
    || b == a || (syncs && b == Flush(a))
    || (exists n :: Removes(kind, d0, a, b, n))
    || (exists id, k :: Promotable(kind, d0, a, id, k) && b == Change(a, Promotion(id, k)))
  }

  ghost predicate Leads(kind: Kind, syncs: bool, d0: State, path: seq<State>, d: State) {
    && path != [] && path[0] == d0 && path[|path| - 1] == d
    && forall i: nat | i < |path| - 1 :: StepAt(kind, syncs, d0, path, i)
  }

  ghost predicate StepAt(kind: Kind, syncs: bool, d0: State, path: seq<State>, i: nat)
    requires i < |path| - 1
  {
    PassStep(kind, syncs, d0, path[i], path[i + 1])
  }

  ghost predicate Reach(kind: Kind, syncs: bool, d0: State, d: State) {
    exists path: seq<State> :: Leads(kind, syncs, d0, path, d)
  }

  lemma ReachStart(kind: Kind, syncs: bool, d0: State)
    ensures Reach(kind, syncs, d0, d0)
  {
    assert Leads(kind, syncs, d0, [d0], d0);
  }

  lemma ReachStep(kind: Kind, syncs: bool, d0: State, a: State, b: State)
    requires Reach(kind, syncs, d0, a) && PassStep(kind, syncs, d0, a, b)
    ensures Reach(kind, syncs, d0, b)
  {
    var path: seq<State> :| Leads(kind, syncs, d0, path, a);
    forall i: nat | i < |path| ensures StepAt(kind, syncs, d0, path + [b], i) {
      assert i < |path| - 1 ==> StepAt(kind, syncs, d0, path, i);
    }
    assert Leads(kind, syncs, d0, path + [b], b);
  }

  // A run without a sync is a run.
  lemma ReachMore(kind: Kind, syncs: bool, d0: State, d: State)
    requires Reach(kind, false, d0, d)
    ensures Reach(kind, syncs, d0, d)
  {
    var path: seq<State> :| Leads(kind, false, d0, path, d);
    forall i: nat | i < |path| - 1 ensures StepAt(kind, syncs, d0, path, i) {
      assert StepAt(kind, false, d0, path, i);
    }
    assert Leads(kind, syncs, d0, path, d);
  }

  lemma LeadsBack(kind: Kind, syncs: bool, d0: State, path: seq<State>, d: State)
    requires Leads(kind, syncs, d0, path, d) && |path| > 1
    ensures Leads(kind, syncs, d0, path[..|path| - 1], path[|path| - 2])
    ensures PassStep(kind, syncs, d0, path[|path| - 2], d)
  {
    var k: nat := |path| - 2;
    assert StepAt(kind, syncs, d0, path, k);
    var less := path[..k + 1];
    forall i: nat | i < k ensures StepAt(kind, syncs, d0, less, i) {
      assert StepAt(kind, syncs, d0, path, i);
    }
  }

  // ---- The copies no step touches ----

  ghost predicate Spared(kind: Kind, d0: State, i: Ino) {
    i in d0.inodes && forall n :: Doomed(kind, d0, n) ==> d0.entries[n] != i
  }

  // The slot `n` holds a complete set of `d0` that stays; `sure` asks that it is flushed too.
  ghost predicate Holds(kind: Kind, d0: State, m: Listing, id: string, n: Name, sure: bool) {
    && Slot(n, id) && n in m && !Doomed(kind, d0, n) && Spared(kind, d0, m[n])
    && CompleteSet(kind, id, d0.inodes[m[n]].node) && (sure ==> d0.inodes[m[n]].clean)
  }

  ghost predicate Copy(kind: Kind, d0: State, m: Listing, id: string, sure: bool) {
    exists n :: Holds(kind, d0, m, id, n, sure)
  }

  ghost predicate Kept(kind: Kind, d0: State, m: Listing, id: string, sure: bool) {
    && Copy(kind, d0, m, id, sure)
    && forall k | Promotes(kind, View(d0), id, k) :: Copy(kind, d0, ApplyOp(m, Promotion(id, k)), id, sure)
  }

  /** What a caller can check before the pass: every listing a crash can leave
      now holds a flushed complete set of the ID that is not about to go, and
      still does if the pending promotion takes place. */
  ghost predicate Lasting(kind: Kind, d0: State, id: string) {
    forall m | m in d0.survivors :: Kept(kind, d0, m, id, true)
  }

  // Inodes the pass does not remove stay as they were.
  ghost predicate Agrees(kind: Kind, d0: State, d: State) {
    d.inodes.Keys == d0.inodes.Keys && forall i | Spared(kind, d0, i) :: d.inodes[i] == d0.inodes[i]
  }

  lemma CopySurvives(kind: Kind, d0: State, m: Listing, op: Op, id: string, sure: bool)
    requires op.Drop? ==> Doomed(kind, d0, op.name)
    requires op.Move? ==> op.src.Rollback? && op.dst == Final(op.src.id) && op.src.id != id
    requires !op.Make? && Copy(kind, d0, m, id, sure)
    ensures Copy(kind, d0, ApplyOp(m, op), id, sure)
  {
    var n :| Holds(kind, d0, m, id, n, sure);
    assert Holds(kind, d0, ApplyOp(m, op), id, n, sure);
  }

  lemma DropThenMove(m: Listing, n: Name, x: Name, y: Name)
    requires n != x && n != y
    ensures ApplyOp(m - {n}, Move(x, y)) == ApplyOp(m, Move(x, y)) - {n}
  {
  }

  lemma MovesCommute(m: Listing, a: Name, b: Name, x: Name, y: Name)
    requires a != x && a != y && b != x && b != y
    ensures ApplyOp(ApplyOp(m, Move(a, b)), Move(x, y)) == ApplyOp(ApplyOp(m, Move(x, y)), Move(a, b))
  {
  }

  lemma DropKeeps(kind: Kind, d0: State, m: Listing, n: Name, id: string, sure: bool)
    requires Kept(kind, d0, m, id, sure) && Doomed(kind, d0, n)
    ensures Kept(kind, d0, m - {n}, id, sure)
  {
    CopySurvives(kind, d0, m, Drop(n), id, sure);
    forall k | Promotes(kind, View(d0), id, k)
      ensures Copy(kind, d0, ApplyOp(m - {n}, Promotion(id, k)), id, sure)
    {
      CopySurvives(kind, d0, ApplyOp(m, Promotion(id, k)), Drop(n), id, sure);
      DropThenMove(m, n, Rollback(id, k), Final(id));
    }
  }

  lemma PromotionKeeps(kind: Kind, d0: State, m: Listing, x: string, j: string, id: string, sure: bool)
    requires Kept(kind, d0, m, id, sure) && Promotes(kind, View(d0), x, j)
    ensures Kept(kind, d0, ApplyOp(m, Promotion(x, j)), id, sure)
  {
    var o := ApplyOp(m, Promotion(x, j));
    if x != id { CopySurvives(kind, d0, m, Promotion(x, j), id, sure); }
    forall k | Promotes(kind, View(d0), id, k)
      ensures Copy(kind, d0, ApplyOp(o, Promotion(id, k)), id, sure)
    {
      if x == id {
        assert k == j && Rollback(id, k) !in o;
      } else {
        CopySurvives(kind, d0, ApplyOp(m, Promotion(id, k)), Promotion(x, j), id, sure);
        MovesCommute(m, Rollback(x, j), Final(x), Rollback(id, k), Final(id));
      }
    }
  }

  // What a removal does to one listing and to the inodes.
  lemma RemovesOne(kind: Kind, d0: State, a: State, b: State, n: Name)
    requires Removes(kind, d0, a, b, n) && Agrees(kind, d0, a)
    ensures Agrees(kind, d0, b)
    ensures forall m | m in b.survivors :: m in a.survivors || exists o :: o in a.survivors && m == o - {n}
    ensures b.entries == a.entries || b.entries == a.entries - {n}
  {
    ShrunkListings(a, b, n);
    forall i | Spared(kind, d0, i) ensures b.inodes[i] == a.inodes[i] {
      assert i != a.entries[n];
    }
  }

  lemma ShrunkListings(a: State, b: State, n: Name)
    requires n in a.entries && Shrunk(a, b, n)
    ensures forall m | m in b.survivors :: m in a.survivors || exists o :: o in a.survivors && m == o - {n}
    ensures b.entries == a.entries || b.entries == a.entries - {n}
  {
  }

  lemma StepKeeps(kind: Kind, syncs: bool, d0: State, a: State, b: State, id: string)
    requires PassStep(kind, syncs, d0, a, b) && Agrees(kind, d0, a)
    ensures Agrees(kind, d0, b)
    ensures (forall m | m in a.survivors :: Kept(kind, d0, m, id, true)) ==>
              forall m | m in b.survivors :: Kept(kind, d0, m, id, true)
    ensures Kept(kind, d0, a.entries, id, false) ==> Kept(kind, d0, b.entries, id, false)
  {
    if n :| Removes(kind, d0, a, b, n) {
      RemovesOne(kind, d0, a, b, n);
      forall m, sure | m in a.survivors && Kept(kind, d0, m, id, sure) ensures Kept(kind, d0, m - {n}, id, sure) {
        DropKeeps(kind, d0, m, n, id, sure);
      }
    } else if x, j :| Promotable(kind, d0, a, x, j) && b == Change(a, Promotion(x, j)) {
      forall m, sure | m in a.survivors && Kept(kind, d0, m, id, sure)
        ensures Kept(kind, d0, ApplyOp(m, Promotion(x, j)), id, sure)
      {
        PromotionKeeps(kind, d0, m, x, j, id, sure);
      }
    }
  }

  lemma {:induction false} PathKeeps(kind: Kind, syncs: bool, d0: State, path: seq<State>, d: State, id: string)
    requires Leads(kind, syncs, d0, path, d)
    ensures Agrees(kind, d0, d)
    ensures Lasting(kind, d0, id) ==> forall m | m in d.survivors :: Kept(kind, d0, m, id, true)
    ensures Kept(kind, d0, d0.entries, id, false) ==> Kept(kind, d0, d.entries, id, false)
    decreases |path|
  {
    if |path| > 1 {
      var k := |path| - 1;
      LeadsBack(kind, syncs, d0, path, d);
      PathKeeps(kind, syncs, d0, path[..k], path[k - 1], id);
      StepKeeps(kind, syncs, d0, path[k - 1], d, id);
    }
  }

  // ---- What the pass leaves alone ----

  ghost predicate Touched(kind: Kind, d0: State, n: Name) {
    || Doomed(kind, d0, n)
    || exists id, k :: Promotes(kind, View(d0), id, k) && (n == Rollback(id, k) || n == Final(id))
  }

  ghost predicate InSight(d0: State, d: State, n: Name) {
    (n in d.entries <==> n in d0.entries) && (n in d.entries ==> d.entries[n] == d0.entries[n])
  }

  lemma RemovalLeaves(a: State, b: State, x: Name, n: Name)
    requires x in a.entries && Shrunk(a, b, x) && n != x
    ensures InSight(a, b, n)
  {
    assert b.entries == a.entries || b.entries == a.entries - {x};
  }

  lemma PromotionLeaves(a: State, b: State, id: string, k: string, n: Name)
    requires b == Change(a, Promotion(id, k)) && n != Rollback(id, k) && n != Final(id)
    ensures InSight(a, b, n)
  {
  }

  lemma StepLeaves(kind: Kind, syncs: bool, d0: State, a: State, b: State, n: Name)
    requires PassStep(kind, syncs, d0, a, b) && !Touched(kind, d0, n)
    ensures InSight(a, b, n)
  {
    if x :| Removes(kind, d0, a, b, x) {
      RemovalLeaves(a, b, x, n);
    } else if id, k :| Promotable(kind, d0, a, id, k) && b == Change(a, Promotion(id, k)) {
      PromotionLeaves(a, b, id, k, n);
    } else {
      assert b == a || b == Flush(a);
    }
  }

  lemma {:induction false} PathLeaves(kind: Kind, syncs: bool, d0: State, path: seq<State>, d: State, n: Name)
    requires Leads(kind, syncs, d0, path, d) && !Touched(kind, d0, n)
    ensures InSight(d0, d, n)
    decreases |path|
  {
    if |path| > 1 {
      var k := |path| - 1;
      LeadsBack(kind, syncs, d0, path, d);
      PathLeaves(kind, syncs, d0, path[..k], path[k - 1], n);
      StepLeaves(kind, syncs, d0, path[k - 1], d, n);
    }
  }

  /** In every state of every pass each other name holds the tree it held: the
      pass touches what it removes and what it promotes, and nothing else. */
  lemma NothingElseTouched(kind: Kind, syncs: bool, d0: State, d: State, n: Name)
    requires Reach(kind, syncs, d0, d) && !Touched(kind, d0, n)
    ensures n in View(d) <==> n in View(d0)
    ensures n in View(d) ==> View(d)[n] == View(d0)[n]
  {
    var path: seq<State> :| Leads(kind, syncs, d0, path, d);
    PathLeaves(kind, syncs, d0, path, d, n);
    PathKeeps(kind, syncs, d0, path, d, "");
    assert n in d0.entries ==> Spared(kind, d0, d0.entries[n]);
  }

  // ---- What stands in sight ----

  lemma SightAtStart(kind: Kind, d0: State, id: string)
    requires HasCopy(kind, View(d0), id)
    ensures Kept(kind, d0, d0.entries, id, false)
  {
    if Final(id) in View(d0) && CompleteSet(kind, id, View(d0)[Final(id)]) {
      assert Holds(kind, d0, d0.entries, id, Final(id), false);
    } else {
      var k :| Rollback(id, k) in View(d0) && CompleteSet(kind, id, View(d0)[Rollback(id, k)]);
      RollbackAtStart(kind, d0, id, k);
    }
  }

  lemma RollbackAtStart(kind: Kind, d0: State, id: string, k: string)
    requires Rollback(id, k) in d0.entries && CompleteSet(kind, id, Found(d0, Rollback(id, k)))
    requires !(Final(id) in View(d0) && CompleteSet(kind, id, View(d0)[Final(id)]))
    ensures Kept(kind, d0, d0.entries, id, false)
  {
    var i := d0.entries[Rollback(id, k)];
    assert Spared(kind, d0, i);
    assert Holds(kind, d0, d0.entries, id, Rollback(id, k), false);
    forall j | Promotes(kind, View(d0), id, j)
      ensures Copy(kind, d0, ApplyOp(d0.entries, Promotion(id, j)), id, false)
    {
      assert j == k && ApplyOp(d0.entries, Promotion(id, j))[Final(id)] == i;
      assert Holds(kind, d0, ApplyOp(d0.entries, Promotion(id, j)), id, Final(id), false);
    }
  }

  /** From any directory at all: an ID with a complete set in sight has one in
      sight in every state of every pass. */
  lemma SightKept(kind: Kind, syncs: bool, d0: State, d: State, id: string)
    requires Reach(kind, syncs, d0, d) && HasCopy(kind, View(d0), id)
    ensures HasCopy(kind, View(d), id)
  {
    var path: seq<State> :| Leads(kind, syncs, d0, path, d);
    SightAtStart(kind, d0, id);
    PathKeeps(kind, syncs, d0, path, d, id);
    var n :| Holds(kind, d0, d.entries, id, n, false);
    assert n in View(d) && View(d)[n] == d0.inodes[d.entries[n]].node;
    if n.Rollback? { assert n == Rollback(id, n.nonce); }
  }

  // ---- What a crash leaves ----

  lemma CopyInImage(kind: Kind, d0: State, d: State, m: Listing, id: string, img: Tree)
    requires Agrees(kind, d0, d) && Copy(kind, d0, m, id, true)
    requires ValidListing(m, d.inodes) && ImageOf(m, d.inodes, img)
    ensures HasCopy(kind, img, id)
  {
    var n :| Holds(kind, d0, m, id, n, true);
    assert img[n] == d0.inodes[m[n]].node;
    if n.Rollback? { assert n == Rollback(id, n.nonce); }
  }

  lemma LastingKept(kind: Kind, syncs: bool, d0: State, d: State, id: string, img: Tree)
    requires Reach(kind, syncs, d0, d) && Lasting(kind, d0, id) && CrashImage(d, img)
    ensures HasCopy(kind, img, id)
  {
    var path: seq<State> :| Leads(kind, syncs, d0, path, d);
    PathKeeps(kind, syncs, d0, path, d, id);
    var m :| m in d.survivors && ImageOf(m, d.inodes, img);
    assert Kept(kind, d0, m, id, true);
    CopyInImage(kind, d0, d, m, id, img);
  }

  // Remove one doomed entry to the end.
  lemma RemoveWhole(kind: Kind, syncs: bool, d0: State, a: State, n: Name) returns (b: State)
    requires Doomed(kind, d0, n) && AsFound(d0, a, n) && a.inodes[d0.entries[n]] == d0.inodes[d0.entries[n]]
    ensures PassStep(kind, syncs, d0, a, b) && b.entries == a.entries - {n} && b.inodes.Keys == a.inodes.Keys
    ensures forall m | m in a.survivors :: m - {n} in b.survivors
    ensures b.inodes[d0.entries[n]].node == Folder(map[])
    ensures forall i | i in a.inodes && i != d0.entries[n] :: b.inodes[i] == a.inodes[i]
  {
    var i := d0.entries[n];
    if n.Rollback? { CompleteSetIsItsManifest(kind, n.id, Found(d0, n)); }
    var rest := if a.inodes[i].node == Folder(map[]) then a else Rewrite(a, i, Folder(map[]));
    assert Nibbled(a, rest, i);
    ChangeValid(rest, Drop(n));
    b := Change(rest, Drop(n));
    assert Shrunk(a, b, n);
    assert Removes(kind, d0, a, b, n);
    DroppedSurvive(rest, n);
  }

  lemma DroppedSurvive(a: State, n: Name)
    ensures forall m | m in a.survivors :: m - {n} in Change(a, Drop(n)).survivors
  {
    forall m | m in a.survivors ensures m - {n} in Change(a, Drop(n)).survivors {
      assert ApplyOp(m, Drop(n)) == m - {n};
    }
  }

  // `d` is `d0` once every entry of `gone` went and nothing was flushed.
  ghost predicate Emptied(d0: State, d: State, gone: set<Name>) {
    && gone <= d0.entries.Keys && d.inodes.Keys == d0.inodes.Keys && d.entries == d0.entries - gone
    && (forall m | m in d0.survivors :: m - gone in d.survivors)
    && (forall n | n in gone :: d.inodes[d0.entries[n]].node == Folder(map[]))
    && forall i | i in d0.inodes && (forall n | n in gone :: d0.entries[n] != i) :: d.inodes[i] == d0.inodes[i]
  }

  lemma EmptiedOneMore(d0: State, a: State, b: State, left: set<Name>, n: Name)
    requires Emptied(d0, a, left) && n in d0.entries && n !in left
    requires b.entries == a.entries - {n} && b.inodes.Keys == a.inodes.Keys
    requires forall m | m in a.survivors :: m - {n} in b.survivors
    requires b.inodes[d0.entries[n]].node == Folder(map[])
    requires forall i | i in a.inodes && i != d0.entries[n] :: b.inodes[i] == a.inodes[i]
    ensures Emptied(d0, b, left + {n})
  {
    assert forall x | x in left :: d0.entries[x] != d0.entries[n];
    forall m: Listing ensures m - left - {n} == m - (left + {n}) {
    }
  }

  lemma {:induction false} RemoveAll(kind: Kind, syncs: bool, d0: State, gone: set<Name>) returns (d: State)
    requires gone <= d0.entries.Keys && forall n | n in gone :: Doomed(kind, d0, n)
    ensures Reach(kind, syncs, d0, d) && Emptied(d0, d, gone)
    decreases gone
  {
    if gone == {} {
      ReachStart(kind, syncs, d0);
      assert forall m: Listing :: m - {} == m;
      return d0;
    }
    var n :| n in gone;
    var a := RemoveAll(kind, syncs, d0, gone - {n});
    assert AsFound(d0, a, n);
    d := RemoveWhole(kind, syncs, d0, a, n);
    ReachStep(kind, syncs, d0, a, d);
    EmptiedOneMore(d0, a, d, gone - {n}, n);
    TakenAndPut(gone, n);
  }

  lemma TakenAndPut<T>(s: set<T>, x: T)
    requires x in s
    ensures s - {x} + {x} == s
  {
  }

  // A listing of which no slot is a sure copy has an image without one.
  lemma ImageEmptied(kind: Kind, d: State, m: Listing, id: string) returns (img: Tree)
    requires m in d.survivors
    requires forall n | Slot(n, id) && n in m :: !(d.inodes[m[n]].clean && CompleteSet(kind, id, d.inodes[m[n]].node))
    ensures CrashImage(d, img) && !HasCopy(kind, img, id)
  {
    img := map n | n in m :: if Slot(n, id) && !d.inodes[m[n]].clean then Folder(map[]) else d.inodes[m[n]].node;
    assert ImageOf(m, d.inodes, img);
    forall n | n in img && Slot(n, id) ensures !CompleteSet(kind, id, img[n]) {
    }
  }

  lemma NoCopyNoImage(kind: Kind, d0: State, d: State, m: Listing, o: Listing, id: string) returns (img: Tree)
    requires o in d.survivors && !Copy(kind, d0, m, id, true) && d.inodes.Keys == d0.inodes.Keys
    requires forall n | n in o :: n in m && o[n] == m[n] && !Doomed(kind, d0, n)
    requires forall n | Doomed(kind, d0, n) :: d.inodes[d0.entries[n]].node == Folder(map[])
    requires Agrees(kind, d0, d)
    ensures CrashImage(d, img) && !HasCopy(kind, img, id)
  {
    forall n | Slot(n, id) && n in o
      ensures !(d.inodes[o[n]].clean && CompleteSet(kind, id, d.inodes[o[n]].node))
    {
      assert !Holds(kind, d0, m, id, n, true);
    }
    img := ImageEmptied(kind, d, o, id);
  }

  lemma AllGone(kind: Kind, syncs: bool, d0: State) returns (d: State, gone: set<Name>)
    ensures Reach(kind, syncs, d0, d) && Emptied(d0, d, gone) && Agrees(kind, d0, d)
    ensures forall n :: n in gone <==> Doomed(kind, d0, n)
  {
    gone := set n | n in d0.entries && Doomed(kind, d0, n);
    d := RemoveAll(kind, syncs, d0, gone);
  }

  lemma GoneLosesCopy(kind: Kind, syncs: bool, d0: State, m: Listing, id: string) returns (d: State, img: Tree)
    requires m in d0.survivors && !Copy(kind, d0, m, id, true)
    ensures Reach(kind, syncs, d0, d) && CrashImage(d, img) && !HasCopy(kind, img, id)
  {
    var gone;
    d, gone := AllGone(kind, syncs, d0);
    img := NoCopyNoImage(kind, d0, d, m, m - gone, id);
  }

  lemma MovedOfLess(m: Listing, gone: set<Name>, x: Name, y: Name)
    requires x !in gone && y !in gone
    ensures forall n | n in ApplyOp(m - gone, Move(x, y)) ::
              n !in gone && n in ApplyOp(m, Move(x, y)) && ApplyOp(m - gone, Move(x, y))[n] == ApplyOp(m, Move(x, y))[n]
  {
  }

  lemma PromotionLosesCopy(kind: Kind, syncs: bool, d0: State, m: Listing, id: string, k: string)
    returns (d: State, img: Tree)
    requires m in d0.survivors && Promotes(kind, View(d0), id, k)
    requires !Copy(kind, d0, ApplyOp(m, Promotion(id, k)), id, true)
    ensures Reach(kind, syncs, d0, d) && CrashImage(d, img) && !HasCopy(kind, img, id)
  {
    var a, gone := AllGone(kind, syncs, d0);
    ChangeValid(a, Promotion(id, k));
    d := Change(a, Promotion(id, k));
    assert Rollback(id, k) !in gone && Final(id) !in gone;
    assert Promotable(kind, d0, a, id, k);
    ReachStep(kind, syncs, d0, a, d);
    assert ApplyOp(m - gone, Promotion(id, k)) in d.survivors;
    MovedOfLess(m, gone, Rollback(id, k), Final(id));
    img := NoCopyNoImage(kind, d0, d, ApplyOp(m, Promotion(id, k)), ApplyOp(m - gone, Promotion(id, k)), id);
  }

  lemma NotLastingLost(kind: Kind, syncs: bool, d0: State, id: string) returns (d: State, img: Tree)
    requires !Lasting(kind, d0, id)
    ensures Reach(kind, syncs, d0, d) && CrashImage(d, img) && !HasCopy(kind, img, id)
  {
    var m :| m in d0.survivors && !Kept(kind, d0, m, id, true);
    if !Copy(kind, d0, m, id, true) {
      d, img := GoneLosesCopy(kind, syncs, d0, m, id);
    } else {
      var k :| Promotes(kind, View(d0), id, k) && !Copy(kind, d0, ApplyOp(m, Promotion(id, k)), id, true);
      d, img := PromotionLosesCopy(kind, syncs, d0, m, id, k);
    }
  }

  // ---- Where no sync takes effect ----

  // The doomed entries that are gone in `d`.
  ghost function GoneIn(kind: Kind, d0: State, d: State): set<Name> {
    set n | n in d0.entries && n !in d.entries && Doomed(kind, d0, n)
  }

  // Every listing a crash could leave before comes back short of what went since,
  // and so it does with each promotion made since; what went is empty.
  ghost predicate Piled(kind: Kind, d0: State, d: State) {
    && d.inodes.Keys == d0.inodes.Keys
    && (forall n | n in GoneIn(kind, d0, d) :: d.inodes[d0.entries[n]].node == Folder(map[]))
    && (forall m | m in d0.survivors :: m - GoneIn(kind, d0, d) in d.survivors)
    && forall m, x, j | m in d0.survivors && Promotes(kind, View(d0), x, j) && Rollback(x, j) !in d.entries ::
         ApplyOp(m - GoneIn(kind, d0, d), Promotion(x, j)) in d.survivors
  }

  lemma GoneAfterRemoval(kind: Kind, d0: State, a: State, b: State, n: Name)
    requires Removes(kind, d0, a, b, n)
    ensures GoneIn(kind, d0, b) == GoneIn(kind, d0, a) + (if n in b.entries then {} else {n})
    ensures b.entries == if n in b.entries then a.entries else a.entries - {n}
    ensures n !in b.entries ==> b.inodes[d0.entries[n]].node == Folder(map[])
  {
  }

  lemma RemovalPiles(kind: Kind, d0: State, a: State, b: State, n: Name)
    requires Removes(kind, d0, a, b, n) && Piled(kind, d0, a)
    ensures Piled(kind, d0, b)
  {
    GoneAfterRemoval(kind, d0, a, b, n);
    if n !in b.entries { RemovedPiles(kind, d0, a, b, n); }
  }

  lemma RemovedPiles(kind: Kind, d0: State, a: State, b: State, n: Name)
    requires Removes(kind, d0, a, b, n) && Piled(kind, d0, a) && n !in b.entries
    ensures forall m | m in d0.survivors :: m - (GoneIn(kind, d0, a) + {n}) in b.survivors
    ensures forall m, x, j | m in d0.survivors && Promotes(kind, View(d0), x, j) && Rollback(x, j) !in a.entries ::
              ApplyOp(m - (GoneIn(kind, d0, a) + {n}), Promotion(x, j)) in b.survivors
  {
    var gone := GoneIn(kind, d0, a);
    forall m | m in d0.survivors ensures m - (gone + {n}) in b.survivors {
      DroppedStays(a, b, m, gone, n);
    }
    forall m, x, j | m in d0.survivors && Promotes(kind, View(d0), x, j) && Rollback(x, j) !in a.entries
      ensures ApplyOp(m - (gone + {n}), Promotion(x, j)) in b.survivors
    {
      MovedStays(a, b, m, gone, n, x, j);
    }
  }

  lemma DroppedStays(a: State, b: State, m: Listing, gone: set<Name>, n: Name)
    requires n in a.entries && n !in b.entries && Shrunk(a, b, n) && m - gone in a.survivors
    ensures m - (gone + {n}) in b.survivors
  {
    LessOne(m, gone, n);
    assert ApplyOp(m - gone, Drop(n)) in b.survivors;
  }

  lemma MovedStays(a: State, b: State, m: Listing, gone: set<Name>, n: Name, x: string, j: string)
    requires n in a.entries && n !in b.entries && Shrunk(a, b, n) && n != Rollback(x, j) && n != Final(x)
    requires ApplyOp(m - gone, Promotion(x, j)) in a.survivors
    ensures ApplyOp(m - (gone + {n}), Promotion(x, j)) in b.survivors
  {
    LessOne(m, gone, n);
    DropThenMove(m - gone, n, Rollback(x, j), Final(x));
    assert ApplyOp(ApplyOp(m - gone, Promotion(x, j)), Drop(n)) in b.survivors;
  }

  lemma LessOne(m: Listing, gone: set<Name>, n: Name)
    ensures m - (gone + {n}) == m - gone - {n} == ApplyOp(m - gone, Drop(n))
  {
  }

  lemma PromotionPiles(kind: Kind, d0: State, a: State, b: State, id: string, k: string)
    requires Promotable(kind, d0, a, id, k) && b == Change(a, Promotion(id, k)) && Piled(kind, d0, a)
    ensures Piled(kind, d0, b)
  {
    SameGone(kind, d0, a, b, id, k);
    forall m, x, j | m in d0.survivors && Promotes(kind, View(d0), x, j) && Rollback(x, j) !in b.entries
      ensures ApplyOp(m - GoneIn(kind, d0, b), Promotion(x, j)) in b.survivors
    {
      if x == id { assert j == k; }
    }
  }

  lemma SameGone(kind: Kind, d0: State, a: State, b: State, id: string, k: string)
    requires Promotable(kind, d0, a, id, k) && b == Change(a, Promotion(id, k))
    ensures GoneIn(kind, d0, b) == GoneIn(kind, d0, a)
    ensures forall x, j :: Rollback(x, j) !in b.entries ==> Rollback(x, j) !in a.entries || (x == id && j == k)
  {
  }

  lemma {:induction false} PathPiles(kind: Kind, d0: State, path: seq<State>, d: State)
    requires Leads(kind, false, d0, path, d)
    ensures Piled(kind, d0, d)
    decreases |path|
  {
    if |path| > 1 {
      var k := |path| - 1;
      LeadsBack(kind, false, d0, path, d);
      PathPiles(kind, d0, path[..k], path[k - 1]);
      StepPiles(kind, d0, path[k - 1], d);
    } else {
      assert GoneIn(kind, d0, d) == {};
      assert forall m: Listing :: m - {} == m;
    }
  }

  lemma StepPiles(kind: Kind, d0: State, a: State, b: State)
    requires PassStep(kind, false, d0, a, b) && Piled(kind, d0, a)
    ensures Piled(kind, d0, b)
  {
    if n :| Removes(kind, d0, a, b, n) {
      RemovalPiles(kind, d0, a, b, n);
    } else if id, k :| Promotable(kind, d0, a, id, k) && b == Change(a, Promotion(id, k)) {
      PromotionPiles(kind, d0, a, b, id, k);
    }
  }

  // Once everything doomed is gone and everything promotable promoted, a set that does not last is lost.
  lemma PiledLoses(kind: Kind, d0: State, d: State, id: string) returns (img: Tree)
    requires Reach(kind, false, d0, d) && Tidied(kind, View(d0), View(d)) && !Lasting(kind, d0, id)
    ensures CrashImage(d, img) && !HasCopy(kind, img, id)
  {
    var path: seq<State> :| Leads(kind, false, d0, path, d);
    PathPiles(kind, d0, path, d);
    PathKeeps(kind, false, d0, path, d, id);
    TidiedIsGone(kind, d0, d);
    var m :| m in d0.survivors && !Kept(kind, d0, m, id, true);
    if !Copy(kind, d0, m, id, true) {
      img := NoCopyNoImage(kind, d0, d, m, m - GoneIn(kind, d0, d), id);
    } else {
      var k :| Promotes(kind, View(d0), id, k) && !Copy(kind, d0, ApplyOp(m, Promotion(id, k)), id, true);
      img := PiledPromotionLoses(kind, d0, d, m, id, k);
    }
  }

  lemma PiledPromotionLoses(kind: Kind, d0: State, d: State, m: Listing, id: string, k: string) returns (img: Tree)
    requires Piled(kind, d0, d) && Agrees(kind, d0, d) && m in d0.survivors && Rollback(id, k) !in d.entries
    requires forall n :: n in GoneIn(kind, d0, d) <==> Doomed(kind, d0, n)
    requires Promotes(kind, View(d0), id, k) && !Copy(kind, d0, ApplyOp(m, Promotion(id, k)), id, true)
    ensures CrashImage(d, img) && !HasCopy(kind, img, id)
  {
    var gone := GoneIn(kind, d0, d);
    MovedOfLess(m, gone, Rollback(id, k), Final(id));
    img := NoCopyNoImage(kind, d0, d, ApplyOp(m, Promotion(id, k)), ApplyOp(m - gone, Promotion(id, k)), id);
  }

  lemma TidiedIsGone(kind: Kind, d0: State, d: State)
    requires Tidied(kind, View(d0), View(d))
    ensures forall n :: n in GoneIn(kind, d0, d) <==> Doomed(kind, d0, n)
    ensures forall x, j | Promotes(kind, View(d0), x, j) :: Rollback(x, j) !in d.entries
  {
    forall n | Doomed(kind, d0, n) ensures n !in d.entries {
      if n.Rollback? { assert SlotsTidied(kind, View(d0), View(d), n.id) && n == Rollback(n.id, n.nonce); }
      if n.Candidate? { assert n == Candidate(n.id, n.nonce); }
      assert n in View(d) <==> n in d.entries;
    }
    forall x, j | Promotes(kind, View(d0), x, j) ensures Rollback(x, j) !in d.entries {
      assert SlotsTidied(kind, View(d0), View(d), x);
      assert Rollback(x, j) in View(d) <==> Rollback(x, j) in d.entries;
    }
  }

  /** No crash during any pass, however it fails, loses the last complete set of
      an ID exactly when `Lasting` held when the pass began. */
  lemma PassIsDurableIffLasting(kind: Kind, syncs: bool, d0: State, id: string)
    ensures Lasting(kind, d0, id) <==>
            forall d: State, img | Reach(kind, syncs, d0, d) && CrashImage(d, img) :: HasCopy(kind, img, id)
  {
    if Lasting(kind, d0, id) {
      forall d: State, img | Reach(kind, syncs, d0, d) && CrashImage(d, img) ensures HasCopy(kind, img, id) {
        LastingKept(kind, syncs, d0, d, id, img);
      }
    } else {
      var d, img := NotLastingLost(kind, syncs, d0, id);
    }
  }
}
