// Publication, crash and start-up together: where a pass may begin without
// endangering a set, and what is found once it has run to its end.
module Recovery {
  import opened Basics
  import opened Disk
  import opened ManagedSet
  import opened Directory
  import opened Publish
  import opened Tidy
  import opened PassStates
  import opened Reconcile

  // ---- Where `Lasting` holds ----

  // After a crash nothing is unflushed, and every complete set in sight lasts.
  lemma SettledLasts(kind: Kind, d0: State, id: string)
    requires Settled(d0) && HasCopy(kind, View(d0), id)
    ensures Lasting(kind, d0, id)
  {
    SightAtStart(kind, d0, id);
    var n :| Holds(kind, d0, d0.entries, id, n, false);
    assert Holds(kind, d0, d0.entries, id, n, true);
    forall k | Promotes(kind, View(d0), id, k)
      ensures Copy(kind, d0, ApplyOp(d0.entries, Promotion(id, k)), id, true)
    {
      var x :| Holds(kind, d0, ApplyOp(d0.entries, Promotion(id, k)), id, x, false);
      assert Holds(kind, d0, ApplyOp(d0.entries, Promotion(id, k)), id, x, true);
    }
  }

  // So does a complete set that stands, flushed, at the final name of every listing a crash can leave.
  lemma FinalEverywhereLasts(kind: Kind, d0: State, id: string)
    requires FinalFound(kind, d0, id) && d0.inodes[d0.entries[Final(id)]].clean
    requires forall m | m in d0.survivors :: Final(id) in m && m[Final(id)] == d0.entries[Final(id)]
    ensures Lasting(kind, d0, id)
  {
    forall m | m in d0.survivors ensures Kept(kind, d0, m, id, true) {
      assert Holds(kind, d0, m, id, Final(id), true);
    }
  }

  // A publication between the swap and the removal of its rollback.
  ghost predicate Swapped(kind: Kind, d: State, p: Plan) {
    && Within(d, p, false, true, true) && p.firm && p.prior.Some?
    && CompleteSet(kind, p.id, p.was) && CompleteSet(kind, p.id, p.next)
    && Final(p.id) in d.entries && d.entries[Final(p.id)] == p.made
    && Rollback(p.id, p.nonce) in d.entries && d.entries[Rollback(p.id, p.nonce)] == p.prior.value
  }

  /** Where a publication stopped between its swap and the removal of its
      rollback, a pass endangers the set exactly when the swap is not flushed:
      when some listing a crash can leave does not hold the new set at the final name. */
  lemma SwapLastsIffFlushed(kind: Kind, d0: State, p: Plan)
    requires Swapped(kind, d0, p)
    ensures Lasting(kind, d0, p.id) <==> forall m | m in d0.survivors :: Replaced(m, p)
  {
    if forall m | m in d0.survivors :: Replaced(m, p) {
      FinalEverywhereLasts(kind, d0, p.id);
    } else {
      var m :| m in d0.survivors && !Replaced(m, p);
      assert SetAside(m, p);
      assert Doomed(kind, d0, Rollback(p.id, p.nonce)) && !Spared(kind, d0, p.prior.value);
      forall n ensures !Holds(kind, d0, m, p.id, n, true) {
        if Slot(n, p.id) && n in m { assert n == Rollback(p.id, n.nonce); }
      }
      assert !Kept(kind, d0, m, p.id, true);
    }
  }

  /** So it is in the runs of the pass itself: one in which nothing fails, or
      nothing but each sync of the parent, leaves no crash that loses the set if
      and only if the swap it found was flushed. */
  method ReconcileSwap(dir: Parent, ghost p: Plan) returns (report: Report)
    requires dir.Valid() && dir.Steady() && (Single(dir.disk) || !dir.syncs)
    requires Swapped(dir.kind, dir.disk, p)
    modifies dir
    ensures dir.Valid() && old(dir.history) <= dir.history
    ensures (forall m | m in old(dir.disk.survivors) :: Replaced(m, p))
            <==> Endures(dir.kind, dir.history, |old(dir.history)| - 1, p.id)
    ensures dir.syncs ==> report == Residual(Residuals(dir.kind, View(old(dir.disk))))
  {
    SwapLastsIffFlushed(dir.kind, dir.disk, p);
    report := Reconcile.Reconcile(dir);
  }

  // The directory left by a swap whose flush failed or was interrupted.
  function UnflushedSwap(p: Plan, c: string): Disk
    requires p.prior.Some?
  {
    var aside := map[Candidate(p.id, c) := p.made, Rollback(p.id, p.nonce) := p.prior.value];
    var swapped := map[Final(p.id) := p.made, Rollback(p.id, p.nonce) := p.prior.value];
    Disk(swapped, {aside, swapped}, map[p.made := Inode(p.next, true), p.prior.value := Inode(p.was, true)])
  }

  /** There the promise of the publication still holds: every crash leaves the
      old or the new set. The pass that finds it, though nothing fails and it
      reports nothing, breaks it: it takes the complete set at the final name for
      settled, removes the rollback, and in the state `k` a crash leaves neither. */
  method UnflushedSwapIsLost(kind: Kind, p: Plan, c: string, syncs: bool)
    returns (dir: Parent, report: Report, ghost k: nat, ghost img: Tree)
    requires p.firm && p.plain && p.prior.Some? && p.prior.value != p.made
    requires CompleteSet(kind, p.id, p.was) && CompleteSet(kind, p.id, p.next)
    ensures ValidDisk(UnflushedSwap(p, c))
    ensures forall i | CrashImage(UnflushedSwap(p, c), i) :: Recoverable(i, p.id, Some(p.was), p.next)
    ensures dir.history != [] && dir.history[0] == UnflushedSwap(p, c) && (syncs ==> report == Residual({}))
    ensures k < |dir.history| && CrashImage(dir.history[k], img) && !HasCopy(kind, img, p.id)
  {
    UnflushedSwapSwapped(kind, p, c);
    forall i | CrashImage(UnflushedSwap(p, c), i) ensures Recoverable(i, p.id, Some(p.was), p.next) {
      ProtectedMeansRecoverable(UnflushedSwap(p, c), p, i);
    }
    UnflushedSwapUnflushed(kind, p, c);
    dir := FaultFree(kind, syncs, UnflushedSwap(p, c));
    report := ReconcileSwap(dir, p);
    UnflushedSwapReportsNothing(kind, p, c);
    k, img := LostIn(kind, dir.history, p.id);
  }

  lemma LostIn(kind: Kind, h: seq<State>, id: string) returns (k: nat, img: Tree)
    requires !Endures(kind, h, 0, id)
    ensures k < |h| && CrashImage(h[k], img) && !HasCopy(kind, img, id)
  {
    k, img :| 0 <= k < |h| && CrashImage(h[k], img) && !HasCopy(kind, img, id);
  }

  lemma UnflushedSwapUnflushed(kind: Kind, p: Plan, c: string)
    requires p.prior.Some? && ValidDisk(UnflushedSwap(p, c)) && Swapped(kind, UnflushedSwap(p, c), p)
    ensures exists m :: m in UnflushedSwap(p, c).survivors && !Replaced(m, p)
    ensures Single(UnflushedSwap(p, c))
  {
    var aside := map[Candidate(p.id, c) := p.made, Rollback(p.id, p.nonce) := p.prior.value];
    assert aside in UnflushedSwap(p, c).survivors && !Replaced(aside, p);
  }

  lemma UnflushedSwapReportsNothing(kind: Kind, p: Plan, c: string)
    requires p.prior.Some? && p.prior.value != p.made && ValidDisk(UnflushedSwap(p, c))
    requires CompleteSet(kind, p.id, p.was) && CompleteSet(kind, p.id, p.next)
    ensures Residuals(kind, View(UnflushedSwap(p, c))) == {}
  {
    assert Superseded(kind, View(UnflushedSwap(p, c)), p.id, p.nonce);
  }

  lemma UnflushedSwapSwapped(kind: Kind, p: Plan, c: string)
    requires p.firm && p.plain && p.prior.Some? && p.prior.value != p.made
    requires CompleteSet(kind, p.id, p.was) && CompleteSet(kind, p.id, p.next)
    ensures ValidDisk(UnflushedSwap(p, c)) && Swapped(kind, UnflushedSwap(p, c), p)
    ensures Protected(UnflushedSwap(p, c), p)
  {
    CompleteSetIsItsManifest(kind, p.id, p.next);
    var d := UnflushedSwap(p, c);
    var aside := map[Candidate(p.id, c) := p.made, Rollback(p.id, p.nonce) := p.prior.value];
    assert d.survivors == {aside, d.entries};
    TwoListings(p, c, aside, d);
    assert Within(d, p, false, true, true);
    assert forall m | m in d.survivors :: Covered(m, d.inodes, p);
  }

  lemma TwoListings(p: Plan, c: string, aside: Listing, d: Disk)
    requires p.prior.Some? && p.prior.value != p.made && d == UnflushedSwap(p, c) && SafeTree(p.next)
    requires aside == map[Candidate(p.id, c) := p.made, Rollback(p.id, p.nonce) := p.prior.value]
    ensures ValidListing(aside, d.inodes) && ValidListing(d.entries, d.inodes)
    ensures SetAside(aside, p) && Replaced(d.entries, p) && Intact(d.inodes, p) && Written(d.inodes, p)
    ensures Plain(aside, d.inodes, p.id) && Plain(d.entries, d.inodes, p.id)
  {
    assert Rollback(p.id, p.nonce) in aside;
  }

  // ---- A crash during recovery ----

  // Where the copy of a recoverable directory is, in a state of the pass that found `d0`.
  ghost predicate Sound(kind: Kind, d0: State, m: Listing, id: string, was: Option<Node>, next: Node) {
    || (Final(id) in m && Spared(kind, d0, m[Final(id)])
        && (d0.inodes[m[Final(id)]].node == next || was == Some(d0.inodes[m[Final(id)]].node))
        && forall k | Promotes(kind, View(d0), id, k) :: Rollback(id, k) !in m)
    || (Final(id) !in m && was.None? && Alone(m, id))
    || (Final(id) !in m && was.Some? && exists r :: SoundAside(kind, d0, m, id, r, was.value))
  }

  ghost predicate SoundAside(kind: Kind, d0: State, m: Listing, id: string, r: string, was: Node) {
    && Rollback(id, r) in m && !Doomed(kind, d0, Rollback(id, r)) && Spared(kind, d0, m[Rollback(id, r)])
    && d0.inodes[m[Rollback(id, r)]].node == was && forall k :: Rollback(id, k) in m ==> k == r
  }

  ghost predicate AllSound(kind: Kind, d0: State, d: State, id: string, was: Option<Node>, next: Node) {
    && Agrees(kind, d0, d)
    && forall m | m in d.survivors :: Sound(kind, d0, m, id, was, next) && Plain(m, d.inodes, id)
  }

  lemma DropStaysSound(kind: Kind, d0: State, m: Listing, n: Name, id: string, was: Option<Node>, next: Node)
    requires Sound(kind, d0, m, id, was, next) && Doomed(kind, d0, n)
    ensures Sound(kind, d0, m - {n}, id, was, next)
  {
    if Final(id) !in m && was.Some? {
      var r :| SoundAside(kind, d0, m, id, r, was.value);
      assert SoundAside(kind, d0, m - {n}, id, r, was.value);
    }
  }

  lemma MoveStaysSound(kind: Kind, d0: State, m: Listing, x: string, j: string, id: string, was: Option<Node>,
                       next: Node)
    requires Sound(kind, d0, m, id, was, next) && Promotes(kind, View(d0), x, j)
    ensures Sound(kind, d0, ApplyOp(m, Promotion(x, j)), id, was, next)
  {
    var o := ApplyOp(m, Promotion(x, j));
    if Final(id) !in m && was.Some? {
      var r :| SoundAside(kind, d0, m, id, r, was.value);
      if x != id || j != r { assert SoundAside(kind, d0, o, id, r, was.value); }
    }
  }

  lemma RemovalStaysPlain(a: State, b: State, n: Name, id: string)
    requires n in a.entries && Shrunk(a, b, n) && forall m | m in a.survivors :: Plain(m, a.inodes, id)
    ensures forall m | m in b.survivors :: Plain(m, b.inodes, id)
  {
    var i := a.entries[n];
    if SafeTree(a.inodes[i].node) { PartOfSafe(b.inodes[i].node, a.inodes[i].node); }
    forall m | m in b.survivors ensures Plain(m, b.inodes, id) {
      var o :| o in a.survivors && (m == o || m == o - {n});
      assert Plain(o, a.inodes, id);
    }
  }

  lemma RemovalStaysSound(kind: Kind, d0: State, a: State, b: State, n: Name, id: string, was: Option<Node>, next: Node)
    requires Removes(kind, d0, a, b, n) && AllSound(kind, d0, a, id, was, next)
    ensures AllSound(kind, d0, b, id, was, next)
  {
    RemovesOne(kind, d0, a, b, n);
    RemovalStaysPlain(a, b, n, id);
    forall m | m in b.survivors ensures Sound(kind, d0, m, id, was, next) {
      var o :| o in a.survivors && (m == o || m == o - {n});
      assert Sound(kind, d0, o, id, was, next);
      DropStaysSound(kind, d0, o, n, id, was, next);
    }
  }

  lemma PromotionStaysSound(kind: Kind, d0: State, a: State, b: State, x: string, j: string, id: string,
                            was: Option<Node>, next: Node)
    requires Promotes(kind, View(d0), x, j) && b == Change(a, Promotion(x, j))
    requires AllSound(kind, d0, a, id, was, next)
    ensures AllSound(kind, d0, b, id, was, next)
  {
    forall m | m in b.survivors ensures Sound(kind, d0, m, id, was, next) && Plain(m, b.inodes, id) {
      var o :| o in a.survivors && (m == o || m == ApplyOp(o, Promotion(x, j)));
      assert Sound(kind, d0, o, id, was, next) && Plain(o, a.inodes, id);
      MoveStaysSound(kind, d0, o, x, j, id, was, next);
    }
  }

  lemma StepStaysSound(kind: Kind, syncs: bool, d0: State, a: State, b: State, id: string, was: Option<Node>,
                       next: Node)
    requires PassStep(kind, syncs, d0, a, b) && AllSound(kind, d0, a, id, was, next)
    ensures AllSound(kind, d0, b, id, was, next)
  {
    if n :| Removes(kind, d0, a, b, n) {
      RemovalStaysSound(kind, d0, a, b, n, id, was, next);
    } else if x, j :| Promotable(kind, d0, a, x, j) && b == Change(a, Promotion(x, j)) {
      PromotionStaysSound(kind, d0, a, b, x, j, id, was, next);
    }
  }

  lemma {:induction false} PathStaysSound(kind: Kind, syncs: bool, d0: State, path: seq<State>, d: State, id: string,
                                          was: Option<Node>, next: Node)
    requires Leads(kind, syncs, d0, path, d) && AllSound(kind, d0, d0, id, was, next)
    ensures AllSound(kind, d0, d, id, was, next)
    decreases |path|
  {
    if |path| > 1 {
      var k := |path| - 1;
      LeadsBack(kind, syncs, d0, path, d);
      PathStaysSound(kind, syncs, d0, path[..k], path[k - 1], id, was, next);
      StepStaysSound(kind, syncs, d0, path[k - 1], d, id, was, next);
    }
  }

  lemma SoundAtStart(kind: Kind, d0: State, id: string, was: Option<Node>, next: Node)
    requires Settled(d0) && Recoverable(View(d0), id, was, next)
    ensures AllSound(kind, d0, d0, id, was, next)
  {
    EntriesSound(kind, d0, id, was, next);
    EntriesPlain(d0, id);
    assert Agrees(kind, d0, d0);
  }

  lemma EntriesPlain(d0: State, id: string)
    requires forall k :: Candidate(id, k) in View(d0) ==> SafeTree(View(d0)[Candidate(id, k)])
    ensures Plain(d0.entries, d0.inodes, id)
  {
    forall k | Candidate(id, k) in d0.entries ensures SafeTree(Found(d0, Candidate(id, k))) {
      assert Candidate(id, k) in View(d0);
    }
  }

  lemma EntriesSound(kind: Kind, d0: State, id: string, was: Option<Node>, next: Node)
    requires OldOrNew(View(d0), id, was, next)
    ensures Sound(kind, d0, d0.entries, id, was, next)
  {
    if Final(id) in View(d0) {
      assert Spared(kind, d0, d0.entries[Final(id)]);
    } else if was.Some? {
      var r :| Rollback(id, r) in View(d0) && View(d0)[Rollback(id, r)] == was.value
               && forall k :: Rollback(id, k) in View(d0) ==> k == r;
      RollbackSound(kind, d0, id, r, was.value);
    } else {
      assert forall k :: Rollback(id, k) in d0.entries ==> Rollback(id, k) in View(d0);
    }
  }

  lemma RollbackSound(kind: Kind, d0: State, id: string, r: string, was: Node)
    requires Final(id) !in View(d0) && Rollback(id, r) in View(d0) && View(d0)[Rollback(id, r)] == was
    requires forall k :: Rollback(id, k) in View(d0) ==> k == r
    ensures SoundAside(kind, d0, d0.entries, id, r, was)
  {
    assert Spared(kind, d0, d0.entries[Rollback(id, r)]);
    assert forall k :: Rollback(id, k) in d0.entries ==> Rollback(id, k) in View(d0);
  }

  lemma SoundImage(kind: Kind, d0: State, d: State, m: Listing, id: string, was: Option<Node>, next: Node, img: Tree)
    requires Settled(d0) && Agrees(kind, d0, d) && m in d.survivors && ImageOf(m, d.inodes, img)
    requires Sound(kind, d0, m, id, was, next) && Plain(m, d.inodes, id)
    ensures Recoverable(img, id, was, next)
  {
    if Final(id) !in m && was.Some? {
      var r :| SoundAside(kind, d0, m, id, r, was.value);
      assert img[Rollback(id, r)] == was.value;
    }
  }

  /** A pass over what a crash left may itself fail and crash, anywhere: what
      that second crash leaves is as recoverable as what the pass found. */
  lemma RecoveryIsCrashSafe(kind: Kind, syncs: bool, d0: State, d: State, id: string, was: Option<Node>, next: Node,
                            img: Tree)
    requires Settled(d0) && Recoverable(View(d0), id, was, next)
    requires Reach(kind, syncs, d0, d) && CrashImage(d, img)
    ensures Recoverable(img, id, was, next)
  {
    var path: seq<State> :| Leads(kind, syncs, d0, path, d);
    SoundAtStart(kind, d0, id, was, next);
    PathStaysSound(kind, syncs, d0, path, d, id, was, next);
    var m :| m in d.survivors && ImageOf(m, d.inodes, img);
    SoundImage(kind, d0, d, m, id, was, next, img);
  }

  // A pass over the tree `before`, cut short by a crash that left `after`.
  ghost predicate CrashedPass(kind: Kind, before: Tree, after: Tree) {
    exists d0: State, d: State ::
      Settled(d0) && View(d0) == before && Reach(kind, true, d0, d) && CrashImage(d, after)
  }

  lemma {:induction false} ThroughCrashes(kind: Kind, left: seq<Tree>, id: string, was: Option<Node>, next: Node)
    requires left != [] && Recoverable(left[0], id, was, next)
    requires forall i: nat | i < |left| - 1 :: CrashedPass(kind, left[i], left[i + 1])
    ensures Recoverable(left[|left| - 1], id, was, next)
    decreases |left|
  {
    if |left| > 1 {
      var k := |left| - 1;
      ThroughCrashes(kind, left[..k], id, was, next);
      assert CrashedPass(kind, left[k - 1], left[k - 1 + 1]);
      var d0: State, d: State :|
        Settled(d0) && View(d0) == left[k - 1] && Reach(kind, true, d0, d) && CrashImage(d, left[k]);
      RecoveryIsCrashSafe(kind, true, d0, d, id, was, next, left[k]);
    }
  }

  // ---- Publish, crash, start again ----

  // The directory as it comes back after a crash that left `img`.
  method Mount(img: Tree) returns (d: Disk)
    ensures Settled(d) && View(d) == img
  {
    var todo, next := img.Keys, 0;
    var entries: Listing, inodes: map<Ino, Inode> := map[], map[];
    while todo != {}
      invariant todo <= img.Keys && entries.Keys == img.Keys - todo
      invariant ValidListing(entries, inodes) && forall i | i in inodes :: i < next && inodes[i].clean
      invariant forall n | n in entries :: inodes[entries[n]].node == img[n]
      decreases |todo|
    {
      var n :| n in todo;
      entries, inodes := entries[n := next], inodes[next := Inode(img[n], true)];
      todo, next := todo - {n}, next + 1;
    }
    d := Disk(entries, {entries}, inodes);
  }

  // `left[0]` is what a crash during the run kept; each next tree is what a crash
  // during the pass over the one before it kept.
  ghost predicate Crashes(kind: Kind, h: seq<State>, from: nat, left: seq<Tree>) {
    && left != [] && (exists k :: from <= k < |h| && CrashImage(h[k], left[0]))
    && forall i: nat | i < |left| - 1 :: CrashedPass(kind, left[i], left[i + 1])
  }

  // Nothing was in danger when the publication began, and these crashes followed.
  ghost predicate Crashed(kind: Kind, h: seq<State>, from: nat, p: Plan, left: seq<Tree>) {
    && p.firm && p.plain && (p.prior.Some? ==> CompleteSet(kind, p.id, p.was))
    && Crashes(kind, h, from, left)
  }

  lemma CrashedRecovers(kind: Kind, h: seq<State>, from: nat, p: Plan, left: seq<Tree>, w: Tree)
    requires PromiseKept(h, from, p) && CompleteSet(kind, p.id, p.next) && left != []
    requires Tidied(kind, left[|left| - 1], w)
    ensures Crashed(kind, h, from, p, left) ==>
              && Recovered(w, p.id, PriorNode(p), p.next)
              && forall k | Rollback(p.id, k) in w :: Entry(Rollback(p.id, k)) in Residuals(kind, left[|left| - 1])
  {
    if Crashed(kind, h, from, p, left) {
      var k :| from <= k < |h| && CrashImage(h[k], left[0]);
      ThroughCrashes(kind, left, p.id, PriorNode(p), p.next);
      RecoveryAfterCrash(kind, left[|left| - 1], w, p.id, PriorNode(p), p.next);
    }
  }

  /** A publication that fails or crashes anywhere, any number of start-up
      passes that fail or crash anywhere, then one pass without faults: the old
      or the new set stands whole at the final name, no candidate of the ID is
      left, and every rollback left is reported. */
  method PublishCrashRecover(dir: Parent, g: Graph, members: map<string, Data>, createdAt: int,
                             candidateNonce: string, rollbackNonce: string, made: Ino, torn: Bytes, left: seq<Tree>)
    returns (outcome: Outcome, again: Parent, report: Report, ghost p: Plan)
    requires dir.Valid() && dir.kind == g.kind && members.Keys == MemberNames(g.kind) && left != []
    requires made !in dir.disk.inodes
    requires Prepared(dir.disk, g.entity, Candidate(g.entity, candidateNonce), Rollback(g.entity, rollbackNonce))
    modifies dir
    ensures p == PlanFor(old(dir.disk), g.entity, rollbackNonce, made,
                         SetOf(members, BuildManifest(g, members, createdAt)))
    ensures again.Valid() && report == Residual(Residuals(g.kind, left[|left| - 1]))
    ensures Crashed(g.kind, dir.history, |old(dir.history)| - 1, p, left) ==>
              && Recovered(View(again.disk), g.entity, PriorNode(p), p.next)
              && forall k | Rollback(g.entity, k) in View(again.disk) :: Entry(Rollback(g.entity, k)) in report.places
  {
    outcome, p := PublishSet(dir, g, members, createdAt, candidateNonce, rollbackNonce, made, torn);
    BuiltSetIsComplete(g, members, createdAt);
    ghost var h, from := dir.history, |old(dir.history)| - 1;
    again, report := StartAgain(g.kind, left[|left| - 1]);
    CrashedRecovers(g.kind, h, from, p, left, View(again.disk));
  }

  // A parent in which nothing fails, unless its own sync does.
  method FaultFree(kind: Kind, syncs: bool, d: Disk) returns (dir: Parent)
    requires ValidDisk(d)
    ensures fresh(dir) && dir.Valid() && dir.Steady() && dir.kind == kind && dir.syncs == syncs
    ensures dir.disk == d && dir.history == [d]
  {
    dir := new Parent(kind, t => Fine, t => true, syncs, d);
  }

  // A pass without faults over what a crash left.
  method StartAgain(kind: Kind, img: Tree) returns (dir: Parent, report: Report)
    ensures fresh(dir) && dir.Valid()
    ensures Tidied(kind, img, View(dir.disk)) && report == Residual(Residuals(kind, img))
  {
    var d := Mount(img);
    dir := FaultFree(kind, true, d);
    report := Reconcile.Reconcile(dir);
  }
}
