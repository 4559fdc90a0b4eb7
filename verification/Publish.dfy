// Publication of one managed set: candidate, set-aside of the prior set, swap,
// and the promises that hold in every directory state on the way.
module Publish {
  import opened Basics
  import opened Disk
  import opened ManagedSet
  import opened Directory

  // What a step raises itself keeps its status: an interrupt stays one.
  datatype Failure = Raised(status: Status) | Integrity | Incomplete(residuals: set<Place>)

  datatype Outcome = Published(manifest: Manifest, reused: bool) | Failed(failure: Failure)

  // One publication: the ID, the nonce of its rollback, what stood at the final
  // name before it, the inode of its candidate and the set it writes there.
  // `firm` records that no crash could lose what stood at the final name when the
  // run began, `plain` that every candidate a crash could bring back then was a plain tree.
  datatype Plan =
    Plan(id: string, nonce: string, prior: Option<Ino>, was: Node, made: Ino, next: Node, firm: bool, plain: bool)

  // ---- The three listings a publication moves between ----

  ghost predicate Standing(m: Listing, p: Plan) {
    && Rollback(p.id, p.nonce) !in m
    && match p.prior
       case None => Final(p.id) !in m && Alone(m, p.id)
       case Some(i) => Final(p.id) in m && m[Final(p.id)] == i
  }

  // The prior set stands under exactly one rollback name, of this run or of an earlier one.
  ghost predicate SetAside(m: Listing, p: Plan) {
    && p.prior.Some? && Final(p.id) !in m
    && exists r :: Rollback(p.id, r) in m && m[Rollback(p.id, r)] == p.prior.value
                   && forall k :: Rollback(p.id, k) in m ==> k == r
  }

  ghost predicate Alone(m: Listing, id: string) {
    forall k :: Rollback(id, k) !in m
  }

  ghost predicate Replaced(m: Listing, p: Plan) {
    Final(p.id) in m && m[Final(p.id)] == p.made
  }

  ghost predicate Intact(inodes: map<Ino, Inode>, p: Plan) {
    p.prior.Some? ==>
      && p.prior.value in inodes && p.prior.value != p.made
      && inodes[p.prior.value].node == p.was && (p.firm ==> inodes[p.prior.value].clean)
  }

  ghost predicate Written(inodes: map<Ino, Inode>, p: Plan) {
    p.made in inodes && inodes[p.made] == Inode(p.next, true)
  }

  // The candidate of this run is a plain tree ...
  ghost predicate PlainCandidate(inodes: map<Ino, Inode>, p: Plan) {
    p.made in inodes ==> SafeTree(inodes[p.made].node)
  }

  // ... and so is every other one, if it was when the run began.
  ghost predicate Tame(m: Listing, inodes: map<Ino, Inode>, p: Plan) {
    p.plain ==> Plain(m, inodes, p.id)
  }

  ghost predicate Plain(m: Listing, inodes: map<Ino, Inode>, id: string) {
    forall k :: Candidate(id, k) in m ==>
      m[Candidate(id, k)] in inodes && SafeTree(inodes[m[Candidate(id, k)]].node)
  }

  ghost predicate Phase(m: Listing, p: Plan, standing: bool, aside: bool, replaced: bool) {
    (standing && Standing(m, p)) || (aside && SetAside(m, p)) || (replaced && Replaced(m, p))
  }

  ghost predicate Within(d: Disk, p: Plan, standing: bool, aside: bool, replaced: bool) {
    && Phase(d.entries, p, standing, aside, replaced)
    && (forall m | m in d.survivors :: (p.firm ==> Phase(m, p, standing, aside, replaced)) && Tame(m, d.inodes, p))
    && PlainCandidate(d.inodes, p)
    && (standing || aside ==> Intact(d.inodes, p))
    && (replaced ==> Written(d.inodes, p))
  }

  ghost predicate Covered(m: Listing, inodes: map<Ino, Inode>, p: Plan) {
    && Tame(m, inodes, p)
    && (|| (Intact(inodes, p) && (Standing(m, p) || SetAside(m, p)))
        || (Written(inodes, p) && Replaced(m, p)))
  }

  // No crash now loses the set: this is what every state of a run satisfies.
  ghost predicate Protected(d: Disk, p: Plan) {
    p.firm ==> forall m | m in d.survivors :: Covered(m, d.inodes, p)
  }

  // The same promise about the trees found after the crash.
  ghost predicate OldOrNew(img: map<Name, Node>, id: string, was: Option<Node>, next: Node) {
    || (Final(id) in img && (img[Final(id)] == next || was == Some(img[Final(id)])))
    || (Final(id) !in img && was.None? && forall k :: Rollback(id, k) !in img)
    || (Final(id) !in img && was.Some?
        && exists r :: Rollback(id, r) in img && img[Rollback(id, r)] == was.value
                       && forall k :: Rollback(id, k) in img ==> k == r)
  }

  // ... and any candidate left is a plain tree, which the next start-up pass removes.
  ghost predicate Recoverable(img: map<Name, Node>, id: string, was: Option<Node>, next: Node) {
    OldOrNew(img, id, was, next) && forall k :: Candidate(id, k) in img ==> SafeTree(img[Candidate(id, k)])
  }

  function PriorNode(p: Plan): Option<Node> {
    if p.prior.Some? then Some(p.was) else None
  }

  lemma ProtectedMeansRecoverable(d: Disk, p: Plan, img: map<Name, Node>)
    requires ValidDisk(d) && p.firm && Protected(d, p) && CrashImage(d, img)
    ensures OldOrNew(img, p.id, PriorNode(p), p.next)
    ensures p.plain ==> Recoverable(img, p.id, PriorNode(p), p.next)
  {
    var m :| m in d.survivors && ImageOf(m, d.inodes, img);
    assert Covered(m, d.inodes, p);
    if Intact(d.inodes, p) && SetAside(m, p) {
      var r :| Rollback(p.id, r) in m && m[Rollback(p.id, r)] == p.prior.value
               && forall k :: Rollback(p.id, k) in m ==> k == r;
      assert img[Rollback(p.id, r)] == p.was;
    }
  }

  // ---- What leaves the promises alone ----

  ghost predicate Foreign(n: Name, id: string) {
    n != Final(id) && !(n.Rollback? && n.id == id)
  }

  lemma ChangeElsewhere(d: Disk, op: Op, p: Plan, s: bool, a: bool, r: bool)
    requires Within(d, p, s, a, r)
    requires match op
             case Make(n, i) => Foreign(n, p.id) && i == p.made && i in d.inodes
             case Drop(n) => Foreign(n, p.id)
             case Move(x, y) => Foreign(x, p.id) && Foreign(y, p.id) && !y.Candidate?
    ensures Within(Change(d, op), p, s, a, r)
  {
    PhaseElsewhere(d.entries, ApplyOp(d.entries, op), p, s, a, r);
    forall m | m in d.survivors
      ensures (p.firm ==> Phase(ApplyOp(m, op), p, s, a, r)) && Tame(ApplyOp(m, op), d.inodes, p)
    {
      assert Tame(m, d.inodes, p);
      if p.firm { PhaseElsewhere(m, ApplyOp(m, op), p, s, a, r); }
    }
  }

  lemma PhaseElsewhere(m: Listing, o: Listing, p: Plan, s: bool, a: bool, r: bool)
    requires Phase(m, p, s, a, r)
    requires forall n | !Foreign(n, p.id) :: (n in o <==> n in m) && (n in o ==> o[n] == m[n])
    ensures Phase(o, p, s, a, r)
  {
    if SetAside(m, p) {
      var x :| Rollback(p.id, x) in m && m[Rollback(p.id, x)] == p.prior.value
               && forall k :: Rollback(p.id, k) in m ==> k == x;
      assert !Foreign(Rollback(p.id, x), p.id) && Rollback(p.id, x) in o;
      assert forall k :: Rollback(p.id, k) in o ==> !Foreign(Rollback(p.id, k), p.id);
    }
    if Standing(m, p) {
      assert forall k :: !Foreign(Rollback(p.id, k), p.id);
    }
  }

  lemma ShrunkElsewhere(x: Disk, y: Disk, n: Name, p: Plan, s: bool, a: bool, r: bool)
    requires n in x.entries && Shrunk(x, y, n) && Within(x, p, s, a, r) && Foreign(n, p.id)
    requires s || a ==> p.prior != Some(x.entries[n])
    requires r ==> p.made != x.entries[n]
    ensures Within(y, p, s, a, r)
  {
    var rest := y.(entries := x.entries, survivors := x.survivors);
    ShrunkStaysPlain(x, rest, x.entries[n], p);
    assert Within(rest, p, s, a, r);
    ChangeElsewhere(rest, Drop(n), p, s, a, r);
  }

  // What is removed from a plain tree leaves a plain tree.
  lemma ShrunkStaysPlain(x: Disk, y: Disk, i: Ino, p: Plan)
    requires Nibbled(x, y, i) && PlainCandidate(x.inodes, p)
    requires forall m | m in x.survivors :: Tame(m, x.inodes, p)
    ensures PlainCandidate(y.inodes, p) && forall m | m in y.survivors :: Tame(m, y.inodes, p)
  {
    if SafeTree(x.inodes[i].node) { PartOfSafe(y.inodes[i].node, x.inodes[i].node); }
  }

  lemma ShrunkAsideCopy(x: Disk, y: Disk, n: Name, p: Plan)
    requires n in x.entries && Shrunk(x, y, n) && Within(x, p, false, false, true)
    requires n != Final(p.id) && p.made != x.entries[n]
    ensures Within(y, p, false, false, true)
  {
    var rest := y.(entries := x.entries, survivors := x.survivors);
    ShrunkStaysPlain(x, rest, x.entries[n], p);
    forall m | m in x.survivors
      ensures (p.firm ==> Replaced(ApplyOp(m, Drop(n)), p)) && Tame(ApplyOp(m, Drop(n)), y.inodes, p)
    {
      assert Tame(m, rest.inodes, p);
    }
  }

  // ---- Cleaning a candidate ----

  // What is known of a candidate while nothing points at it but its own name.
  ghost predicate Unpublished(d: Disk, p: Plan, c: Name, a: bool, r: bool) {
    && Within(d, p, true, a, r)
    && c.Candidate? && c.id == p.id
    && (c in d.entries ==> d.entries[c] == p.made && !r)
  }

  ghost predicate AllProtected(h: seq<State>, from: nat, p: Plan) {
    forall k | from <= k < |h| :: Protected(h[k], p)
  }

  method CandidateCleanup(dir: Parent, c: Name, ghost p: Plan, ghost a: bool, ghost r: bool)
    returns (refused: Option<Failure>)
    requires dir.Valid() && Unpublished(dir.disk, p, c, a, r)
    modifies dir`clock, dir`disk, dir`history, dir`log
    ensures dir.Valid() && Unpublished(dir.disk, p, c, a, r) && old(dir.history) <= dir.history
    ensures AllProtected(dir.history, |old(dir.history)|, p)
    ensures refused.None? ==> c !in dir.disk.entries && (c in old(dir.disk.entries) || Confirmed(dir.log))
    ensures refused.Some? ==> refused.value.Incomplete? || refused.value in {Raised(Interrupted), Raised(OsError)}
    ensures refused.Some? && refused.value.Incomplete? ==> refused.value.residuals == {Entry(c)}
    ensures refused.Some? ==> !refused.value.Integrity?
    ensures dir.disk.entries == old(dir.disk.entries) || dir.disk.entries == old(dir.disk.entries) - {c}
    ensures old(dir.Calm()) ==> dir.Calm()
    ensures old(dir.Calm()) && (c in old(dir.disk.entries) ==> SafeTree(old(dir.disk.inodes)[p.made].node)) ==>
              refused.None?
  {
    var st, present := dir.Present(c);
    if st != Done { return Some(Raised(st)); }
    if !present {
      var answer: bool;
      st, answer := dir.Live();
      if st != Done { return Some(Raised(Interrupted)); }
      return if answer then None else Some(Incomplete({Entry(c)}));
    }
    ghost var before, mark := dir.disk, |dir.history|;
    var removed: bool;
    st, removed := dir.RemoveTree(c);
    ShrunkElsewhere(before, dir.disk, c, p, true, a, r);
    forall k | mark <= k < |dir.history| ensures Protected(dir.history[k], p) {
      ShrunkElsewhere(before, dir.history[k], c, p, true, a, r);
    }
    if st != Done { return Some(Raised(Interrupted)); }
    return if removed then None else Some(Incomplete({Entry(c)}));
  }

  // `_clean_or_report_candidate`: an interrupt and an earlier report stay louder than this one.
  method CleanOrReport(dir: Parent, c: Name, error: Failure, ghost p: Plan, ghost a: bool, ghost r: bool)
    returns (f: Failure)
    requires dir.Valid() && Unpublished(dir.disk, p, c, a, r)
    modifies dir
    ensures dir.Valid() && Unpublished(dir.disk, p, c, a, r) && old(dir.history) <= dir.history
    ensures AllProtected(dir.history, |old(dir.history)|, p)
    ensures f == error || !f.Integrity?
    ensures ReportedOrGone(dir, c, f)
    ensures dir.disk.entries == old(dir.disk.entries) || dir.disk.entries == old(dir.disk.entries) - {c}
    ensures old(dir.Calm()) ==> dir.Calm()
    ensures old(dir.Calm()) && (c in old(dir.disk.entries) ==> SafeTree(old(dir.disk.inodes)[p.made].node)) ==>
              f == error && c !in dir.disk.entries
    ensures error == Raised(Interrupted) ==> f == error || f == Raised(OsError)
  {
    var refused := CandidateCleanup(dir, c, p, a, r);
    match refused {
      case None => return error;
      case Some(Incomplete(places)) =>
        if error == Raised(Interrupted) || error.Incomplete? {
          dir.unproven := dir.unproven + places;
          return error;
        }
        return Incomplete(places);
      case Some(other) => return other;
    }
  }

  // ---- Building the candidate ----

  lemma EditedKeeps(x: Disk, y: Disk, p: Plan, a: bool)
    requires Within(x, p, true, a, false) && EditedOnly(x, y, p.made)
    ensures Within(y, p, true, a, false)
  {
  }

  // The writes of `_build_candidate` after the directory exists.
  method WriteMembers(dir: Parent, c: Name, members: map<string, Data>, manifest: Manifest, torn: Bytes, ghost p: Plan)
    returns (failure: Option<Failure>)
    requires dir.Valid() && Unpublished(dir.disk, p, c, true, false) && c in dir.disk.entries
    requires MANIFEST !in members && p.next == SetOf(members, manifest)
    requires dir.disk.inodes[p.made].node == Folder(map[])
    modifies dir`clock, dir`disk, dir`history, dir`log
    ensures dir.Valid() && Unpublished(dir.disk, p, c, true, false) && old(dir.history) <= dir.history
    ensures dir.disk.entries == old(dir.disk.entries)
    ensures AllProtected(dir.history, |old(dir.history)|, p)
    ensures failure.None? ==> dir.disk.inodes[p.made].node == p.next
    ensures SafeTree(dir.disk.inodes[p.made].node)
    ensures failure.Some? ==> !failure.value.Integrity?
    ensures failure.Some? && failure.value.Incomplete? ==> failure.value.residuals == {Entry(c)}
    ensures old(dir.Calm()) ==> dir.Calm() && failure.None?
    ensures old(dir.OneError()) ==> dir.OneError()
  {
    var todo := members.Keys;
    ghost var start, held := |dir.history|, map[];
    while todo != {}
      invariant dir.Valid() && todo <= members.Keys && old(dir.history) <= dir.history
      invariant Unpublished(dir.disk, p, c, true, false) && dir.disk.entries == old(dir.disk.entries)
      invariant AllProtected(dir.history, start, p)
      invariant held.Keys == members.Keys - todo && forall n | n in held :: held[n] == File(members[n])
      invariant dir.disk.inodes[p.made].node == Folder(held)
      invariant old(dir.Calm()) ==> dir.Calm()
      invariant old(dir.OneError()) ==> dir.OneError()
      decreases |todo|
    {
      var n :| n in todo;
      failure := WriteBound(dir, c, n, members[n], torn, p);
      if failure.Some? { return; }
      todo, held := todo - {n}, held[n := File(members[n])];
    }
    assert held == map n | n in members :: File(members[n]);
    failure := WriteBound(dir, c, MANIFEST, ManifestText(manifest), torn, p);
  }

  // The validation and flushes that end `_build_candidate`.
  method SealCandidate(dir: Parent, c: Name, g: Graph, manifest: Manifest, ghost p: Plan)
    returns (failure: Option<Failure>)
    requires dir.Valid() && dir.kind == g.kind
    requires Unpublished(dir.disk, p, c, true, false) && c in dir.disk.entries
    requires dir.disk.inodes[p.made].node == p.next
    modifies dir`clock, dir`disk, dir`history, dir`log
    ensures dir.Valid() && Unpublished(dir.disk, p, c, true, false) && old(dir.history) <= dir.history
    ensures dir.disk.entries == old(dir.disk.entries) && dir.disk.inodes[p.made].node == p.next
    ensures AllProtected(dir.history, |old(dir.history)|, p)
    ensures failure.None? ==> dir.disk.inodes[p.made].clean && dir.disk.survivors == {dir.disk.entries}
    ensures failure.None? ==> CompleteSet(g.kind, g.entity, p.next)
    ensures failure.Some? && failure.value.Incomplete? ==> failure.value.residuals == {Entry(c)}
    ensures old(dir.Calm()) ==> dir.Calm()
    ensures old(dir.Calm()) ==>
              failure == if Inspect(g.kind, g.entity, p.next) == Some(manifest) then None else Some(Integrity)
    ensures old(dir.OneError()) ==> dir.OneError()
  {
    var st, read := dir.InspectSet(c, g.entity);
    if st != Done { return Some(Raised(st)); }
    if read != Some(manifest) { return Some(Integrity); }
    st := FlushCandidate(dir, c, p);
    if st != Done { return Some(Raised(st)); }
    failure := RequireLive(dir, {Entry(c)});
  }

  method FlushCandidate(dir: Parent, c: Name, ghost p: Plan) returns (st: Status)
    requires dir.Valid() && Unpublished(dir.disk, p, c, true, false) && c in dir.disk.entries
    modifies dir`clock, dir`disk, dir`history
    ensures dir.Valid() && Unpublished(dir.disk, p, c, true, false) && old(dir.history) <= dir.history
    ensures dir.disk.entries == old(dir.disk.entries)
    ensures dir.disk.inodes[p.made].node == old(dir.disk).inodes[p.made].node
    ensures AllProtected(dir.history, |old(dir.history)|, p)
    ensures st == Done ==> dir.disk.inodes[p.made].clean && dir.disk.survivors == {dir.disk.entries}
    ensures old(dir.Calm()) ==> dir.Calm() && st == Done
    ensures old(dir.OneError()) ==> dir.OneError()
  {
    st := dir.FsyncSet(c);
    if st == Done {
      st := dir.FsyncParent();
    }
  }

  // `require_live`: refuse the next mutation unless the binding still holds.
  method RequireLive(dir: Parent, places: set<Place>) returns (failure: Option<Failure>)
    requires dir.Valid()
    modifies dir`clock, dir`log
    ensures dir.Valid() && old(dir.log) <= dir.log
    ensures failure.Some? ==> failure == Some(Raised(Interrupted)) || failure == Some(Incomplete(places))
    ensures failure.None? ==> Confirmed(dir.log)
    ensures old(dir.Calm()) ==> dir.Calm() && failure.None?
    ensures old(dir.OneError()) ==> dir.OneError() && failure.None?
  {
    var st, answer := dir.Live();
    if st != Done { return Some(Raised(Interrupted)); }
    return if answer then None else Some(Incomplete(places));
  }

  method WriteBound(dir: Parent, c: Name, n: string, data: Data, torn: Bytes, ghost p: Plan)
    returns (failure: Option<Failure>)
    requires dir.Valid() && Unpublished(dir.disk, p, c, true, false) && c in dir.disk.entries
    requires SafeTree(dir.disk.inodes[p.made].node)
    modifies dir`clock, dir`disk, dir`history, dir`log
    ensures dir.Valid() && Unpublished(dir.disk, p, c, true, false) && old(dir.history) <= dir.history
    ensures dir.disk.entries == old(dir.disk.entries)
    ensures AllProtected(dir.history, |old(dir.history)|, p)
    ensures SafeTree(dir.disk.inodes[p.made].node)
    ensures failure.None? ==> n !in old(dir.disk).inodes[p.made].node.children
    ensures failure.None? ==>
              dir.disk.inodes[p.made].node == Folder(old(dir.disk).inodes[p.made].node.children[n := File(data)])
    ensures failure.Some? && failure.value.Incomplete? ==> failure.value.residuals == {Entry(c)}
    ensures failure.Some? ==> !failure.value.Integrity?
    ensures old(dir.Calm()) ==> dir.Calm()
    ensures old(dir.Calm()) && n !in old(dir.disk).inodes[p.made].node.children ==> failure.None?
    ensures old(dir.OneError()) ==> dir.OneError()
  {
    failure := RequireLive(dir, {Entry(c)});
    if failure.Some? { return; }
    ghost var before, mark := dir.disk, |dir.history|;
    var st := dir.WriteFile(c, n, data, torn);
    EditedKeeps(before, dir.disk, p, true);
    forall k | mark <= k < |dir.history| ensures Protected(dir.history[k], p) {
      EditedKeeps(before, dir.history[k], p, true);
    }
    if st != Done { return Some(Raised(st)); }
  }

  method BuildCandidate(dir: Parent, c: Name, g: Graph, members: map<string, Data>, manifest: Manifest, torn: Bytes,
                        made: Ino, ghost p: Plan)
    returns (failure: Option<Failure>)
    requires dir.Valid() && dir.kind == g.kind && MANIFEST !in members
    requires Within(dir.disk, p, true, true, false) && c.Candidate? && c.id == p.id
    requires forall m | m in dir.disk.survivors :: c !in m
    requires made == p.made && made !in dir.disk.inodes && p.next == SetOf(members, manifest)
    modifies dir
    ensures dir.Valid() && Unpublished(dir.disk, p, c, true, false) && old(dir.history) <= dir.history
    ensures AllProtected(dir.history, |old(dir.history)|, p)
    ensures failure.None? ==> dir.disk.entries == old(dir.disk.entries)[c := made]
    ensures failure.None? ==> dir.disk.survivors == {dir.disk.entries} && dir.disk.inodes[made] == Inode(p.next, true)
    ensures failure.None? ==> CompleteSet(g.kind, g.entity, p.next)
    ensures failure.Some? ==> ReportedOrGone(dir, c, failure.value)
    ensures old(dir.Calm()) ==> dir.Calm()
    ensures old(dir.Calm()) ==>
              failure == if Inspect(g.kind, g.entity, p.next) == Some(manifest) then None else Some(Integrity)
    ensures old(dir.Calm()) && failure.Some? ==> dir.disk.entries == old(dir.disk.entries)
    ensures failure.Some? ==> (Final(p.id) in dir.disk.entries <==> Final(p.id) in old(dir.disk.entries))
    ensures old(dir.OneError()) && failure.None? ==> dir.OneError()
  {
    failure := MakeAndFill(dir, c, g, members, manifest, torn, made, p);
    if failure.Some? {
      var error := CleanOrReport(dir, c, failure.value, p, true, false);
      return Some(error);
    }
  }

  // After a failure that is a report in itself, a candidate left behind is named in some report.
  ghost predicate ReportedOrGone(dir: Parent, c: Name, f: Failure)
    reads dir
  {
    f.Incomplete? || f.Integrity? ==>
      c !in dir.disk.entries || Entry(c) in dir.unproven || (f.Incomplete? && Entry(c) in f.residuals)
  }

  method MakeAndFill(dir: Parent, c: Name, g: Graph, members: map<string, Data>, manifest: Manifest, torn: Bytes,
                     made: Ino, ghost p: Plan)
    returns (failure: Option<Failure>)
    requires dir.Valid() && dir.kind == g.kind && MANIFEST !in members
    requires Within(dir.disk, p, true, true, false) && c.Candidate? && c.id == p.id
    requires forall m | m in dir.disk.survivors :: c !in m
    requires made == p.made && made !in dir.disk.inodes && p.next == SetOf(members, manifest)
    modifies dir`clock, dir`disk, dir`history, dir`log
    ensures dir.Valid() && Unpublished(dir.disk, p, c, true, false) && old(dir.history) <= dir.history
    ensures AllProtected(dir.history, |old(dir.history)|, p)
    ensures dir.disk.entries == old(dir.disk.entries) || dir.disk.entries == old(dir.disk.entries)[c := made]
    ensures c in dir.disk.entries ==> SafeTree(dir.disk.inodes[made].node)
    ensures failure.None? ==> c in dir.disk.entries
    ensures failure.None? ==> dir.disk.survivors == {dir.disk.entries} && dir.disk.inodes[made] == Inode(p.next, true)
    ensures failure.None? ==> CompleteSet(g.kind, g.entity, p.next)
    ensures old(dir.Calm()) ==> dir.Calm()
    ensures old(dir.Calm()) ==>
              failure == if Inspect(g.kind, g.entity, p.next) == Some(manifest) then None else Some(Integrity)
    ensures old(dir.OneError()) ==> dir.OneError()
  {
    failure := MakeBound(dir, c, made, p);
    if failure.Some? { return; }
    failure := WriteMembers(dir, c, members, manifest, torn, p);
    if failure.Some? { return; }
    failure := SealCandidate(dir, c, g, manifest, p);
  }

  // The empty candidate directory.
  method MakeBound(dir: Parent, c: Name, made: Ino, ghost p: Plan) returns (failure: Option<Failure>)
    requires dir.Valid() && Within(dir.disk, p, true, true, false) && c.Candidate? && c.id == p.id
    requires forall m | m in dir.disk.survivors :: c !in m
    requires made == p.made && made !in dir.disk.inodes
    modifies dir`clock, dir`disk, dir`history, dir`log
    ensures dir.Valid() && Unpublished(dir.disk, p, c, true, false) && old(dir.history) <= dir.history
    ensures AllProtected(dir.history, |old(dir.history)|, p)
    ensures dir.disk.entries == old(dir.disk.entries) || dir.disk.entries == old(dir.disk.entries)[c := made]
    ensures c in dir.disk.entries ==> dir.disk.inodes[made].node == Folder(map[])
    ensures failure.None? ==> c in dir.disk.entries
    ensures old(dir.Calm()) ==> dir.Calm() && failure.None?
    ensures old(dir.OneError()) ==> dir.OneError()
  {
    failure := RequireLive(dir, {OutRoot});
    if failure.None? {
      ChangeMakes(dir.disk, c, p);
      var st := dir.MkDir(c, made);
      failure := if st == Done then None else Some(Raised(st));
    }
  }

  lemma ChangeMakes(d: Disk, c: Name, p: Plan)
    requires Within(d, p, true, true, false) && c.Candidate? && c.id == p.id && p.made !in d.inodes
    ensures Within(MakeDir(d, c, p.made), p, true, true, false)
  {
    var grown := d.(inodes := d.inodes[p.made := Inode(Folder(map[]), true)]);
    ChangeElsewhere(grown, Make(c, p.made), p, true, true, false);
  }

  // ---- Swapping it in ----

  // The candidate is whole, flushed and not yet at the final name.
  ghost predicate Ready(d: Disk, p: Plan, c: Name, s: bool, a: bool) {
    && Within(d, p, s, a, false) && c.Candidate? && c.id == p.id
    && c in d.entries && d.entries[c] == p.made && Written(d.inodes, p)
  }

  lemma MoveAsideSteps(d: Disk, p: Plan)
    requires Within(d, p, true, false, false) && p.prior.Some?
    requires d.survivors == {d.entries} && Alone(d.entries, p.id)
    ensures Within(Change(d, Move(Final(p.id), Rollback(p.id, p.nonce))), p, true, true, false)
    ensures SetAside(ApplyOp(d.entries, Move(Final(p.id), Rollback(p.id, p.nonce))), p)
  {
    var op := Move(Final(p.id), Rollback(p.id, p.nonce));
    forall m | m in d.survivors ensures SetAside(ApplyOp(m, op), p) && Tame(ApplyOp(m, op), d.inodes, p) {
      assert Rollback(p.id, p.nonce) in ApplyOp(m, op);
      assert Tame(m, d.inodes, p);
    }
  }

  lemma RestoreSteps(d: Disk, p: Plan, s: bool)
    requires Within(d, p, s, true, false)
    ensures Within(Change(d, Move(Rollback(p.id, p.nonce), Final(p.id))), p, true, true, false)
  {
    var op := Move(Rollback(p.id, p.nonce), Final(p.id));
    RestoredPhase(d.entries, p, s);
    forall m | m in d.survivors
      ensures (p.firm ==> Phase(ApplyOp(m, op), p, true, true, false)) && Tame(ApplyOp(m, op), d.inodes, p)
    {
      assert Tame(m, d.inodes, p);
      if p.firm { RestoredPhase(m, p, s); }
    }
  }

  lemma RestoredPhase(m: Listing, p: Plan, s: bool)
    requires Phase(m, p, s, true, false)
    ensures Phase(ApplyOp(m, Move(Rollback(p.id, p.nonce), Final(p.id))), p, true, true, false)
  {
    var op := Move(Rollback(p.id, p.nonce), Final(p.id));
    if Rollback(p.id, p.nonce) in m { assert Standing(ApplyOp(m, op), p); } else { assert ApplyOp(m, op) == m; }
  }

  lemma SwapSteps(d: Disk, p: Plan, c: Name, s: bool, a: bool)
    requires Ready(d, p, c, s, a)
    requires forall m | m in d.survivors :: c in m && m[c] == p.made
    ensures Within(Change(d, Move(c, Final(p.id))), p, s, a, true)
  {
    var op := Move(c, Final(p.id));
    forall m | m in d.survivors ensures Replaced(ApplyOp(m, op), p) && Tame(ApplyOp(m, op), d.inodes, p) {
      assert Tame(m, d.inodes, p);
    }
  }

  // A rename of the prior set between its two names, made durable.
  method RenameAndFlush(dir: Parent, src: Name, dst: Name, ghost p: Plan, ghost s: bool, ghost a: bool,
                        ghost undo: bool)
    returns (st: Status, moved: bool)
    requires dir.Valid() && Within(dir.disk, p, s, a, false)
    requires if undo then src.Rollback? && dst == Final(src.id) else Confirmed(dir.log)
    requires Within(Change(dir.disk, Move(src, dst)), p, true, true, false)
    modifies dir`clock, dir`disk, dir`history, dir`log
    ensures dir.Valid() && old(dir.history) <= dir.history
    ensures dir.log in {old(dir.log), old(dir.log) + [if undo then MovedBack else Moved]}
    ensures dir.clock == old(dir.clock) + (if moved then 2 else 1)
    ensures moved ==> dir.disk.entries == ApplyOp(old(dir.disk.entries), Move(src, dst))
    ensures AllProtected(dir.history, |old(dir.history)|, p)
    ensures Within(dir.disk, p, true, true, false) && dir.disk.inodes == old(dir.disk.inodes)
    ensures || dir.disk.entries == old(dir.disk.entries)
            || dir.disk.entries == ApplyOp(old(dir.disk.entries), Move(src, dst))
    ensures st == Done ==> CanRename(old(dir.disk), src, dst)
    ensures st == Done ==> dir.disk == Flush(Change(old(dir.disk), Move(src, dst)))
    ensures old(dir.Calm()) ==> dir.Calm()
    ensures old(dir.Calm()) && CanRename(old(dir.disk), src, dst) ==> st == Done
    ensures old(dir.OneError()) ==> dir.OneError() && (CanRename(old(dir.disk), src, dst) && st != Done ==> dir.Calm())
  {
    st := dir.Rename(src, dst, undo);
    if st != Done { return st, false; }
    st := dir.FsyncParent();
    return st, true;
  }

  // The listing with the prior set back at its name, where it was set aside.
  ghost function GivenBack(m: Listing, f: Name, rollback: Name): Listing {
    if rollback in m && f !in m then ApplyOp(m, Move(rollback, f)) else m
  }

  lemma AsideIsPrior(d: Disk, p: Plan, s: bool)
    requires Within(d, p, s, true, false) && Rollback(p.id, p.nonce) in d.entries
    ensures p.prior == Some(d.entries[Rollback(p.id, p.nonce)]) && Intact(d.inodes, p)
  {
    assert SetAside(d.entries, p);
  }

  // Where a set stood at the final name, the old or the new one stands there.
  ghost predicate InSight(d: Disk, p: Plan) {
    p.prior.Some? ==>
      && Final(p.id) in d.entries && d.entries[Final(p.id)] in d.inodes
      && d.inodes[d.entries[Final(p.id)]].node in {p.was, p.next}
  }

  // The inner block that moves the prior set to its rollback name.
  method MoveAside(dir: Parent, c: Name, ghost p: Plan, f: Name, rollback: Name)
    returns (failure: Option<Failure>)
    requires dir.Valid() && Ready(dir.disk, p, c, true, false) && dir.disk.survivors == {dir.disk.entries}
    requires f == Final(p.id) && rollback == Rollback(p.id, p.nonce) && p.prior.Some?
    requires Alone(dir.disk.entries, p.id) && Confirmed(dir.log)
    modifies dir
    ensures dir.Valid() && old(dir.history) <= dir.history
    ensures AllProtected(dir.history, |old(dir.history)|, p)
    ensures Ready(dir.disk, p, c, true, true)
    ensures failure.None? ==> Ready(dir.disk, p, c, false, true)
    ensures failure.None? ==> dir.disk == Flush(Change(old(dir.disk), Move(f, rollback)))
    ensures old(dir.Calm()) ==> dir.Calm() && (p.was.Folder? ==> failure.None?)
    ensures old(dir.OneError()) && p.was.Folder? ==>
              if failure.None? then dir.OneError() else dir.disk.entries == old(dir.disk.entries)
  {
    MoveAsideSteps(dir.disk, p);
    var st, moved := RenameAndFlush(dir, f, rollback, p, true, false, false);
    if st == Done { return None; }
    failure := UndoAside(dir, c, p, f, rollback, moved, Raised(st));
  }

  // Its exception handler; where the binding is gone the move stands and is reported.
  method UndoAside(dir: Parent, c: Name, ghost p: Plan, f: Name, rollback: Name, moved: bool, error: Failure)
    returns (failure: Option<Failure>)
    requires dir.Valid() && Ready(dir.disk, p, c, true, true)
    requires f == Final(p.id) && rollback == Rollback(p.id, p.nonce)
    modifies dir
    ensures dir.Valid() && old(dir.history) <= dir.history
    ensures AllProtected(dir.history, |old(dir.history)|, p)
    ensures Ready(dir.disk, p, c, true, true) && failure.Some?
    ensures old(dir.Calm()) ==> dir.Calm()
    ensures old(dir.Calm()) && p.was.Folder? ==>
              failure == Some(error) && dir.disk.entries == GivenBack(old(dir.disk.entries), f, rollback)
    ensures moved && |dir.log| > |old(dir.log)| && dir.log[|old(dir.log)|] == Asked(false) ==>
              && {Entry(c), Entry(rollback)} <= dir.unproven
              && (error != Raised(Interrupted) ==>
                    dir.disk == old(dir.disk) && failure == Some(Incomplete({Entry(c), Entry(rollback)})))
  {
    if moved {
      var lst, answer := dir.Live();
      if lst != Done { return Some(Raised(Interrupted)); }
      if !answer {
        dir.unproven := dir.unproven + {Entry(c), Entry(rollback)};
        if error != Raised(Interrupted) { return Some(Incomplete({Entry(c), Entry(rollback)})); }
      }
    }
    failure := PutBack(dir, c, p, f, rollback, error);
  }

  // Rename the rollback back if it stands and the final name is free.
  method PutBack(dir: Parent, c: Name, ghost p: Plan, f: Name, rollback: Name, error: Failure)
    returns (failure: Option<Failure>)
    requires dir.Valid() && Ready(dir.disk, p, c, true, true)
    requires f == Final(p.id) && rollback == Rollback(p.id, p.nonce)
    modifies dir`clock, dir`disk, dir`history, dir`log
    ensures dir.Valid() && old(dir.history) <= dir.history
    ensures dir.log in {old(dir.log), old(dir.log) + [MovedBack]}
    ensures AllProtected(dir.history, |old(dir.history)|, p)
    ensures Ready(dir.disk, p, c, true, true) && failure.Some?
    ensures old(dir.Calm()) ==> dir.Calm()
    ensures old(dir.Calm()) && p.was.Folder? ==>
              failure == Some(error) && dir.disk.entries == GivenBack(old(dir.disk.entries), f, rollback)
  {
    var st, there := dir.Present(rollback);
    if st != Done { return Some(Raised(st)); }
    if there {
      st, there := dir.Present(f);
      if st != Done { return Some(Raised(st)); }
      if !there {
        RestoreSteps(dir.disk, p, true);
        AsideIsPrior(dir.disk, p, true);
        st, there := RenameAndFlush(dir, rollback, f, p, true, true, true);
        if st != Done { return Some(Incomplete({Entry(rollback)})); }
      }
    }
    return Some(error);
  }

  // The inner block that renames the candidate to the final name, with the one
  // restoration attempt when that fails.
  method PutInPlace(dir: Parent, c: Name, ghost p: Plan, f: Name, rollback: Option<Name>)
    returns (failure: Option<Failure>, ghost swapped: bool)
    requires dir.Valid() && dir.disk.survivors == {dir.disk.entries} && Confirmed(dir.log)
    requires Ready(dir.disk, p, c, rollback.None?, rollback.Some?)
    requires f == Final(p.id) && (rollback.Some? ==> rollback.value == Rollback(p.id, p.nonce))
    requires if rollback.None? then p.prior.None? else rollback.value in dir.disk.entries
    requires p.next.Folder?
    modifies dir`clock, dir`disk, dir`history, dir`log
    ensures dir.Valid() && old(dir.history) <= dir.history
    ensures AllProtected(dir.history, |old(dir.history)|, p)
    ensures failure.None? ==> Within(dir.disk, p, rollback.None?, rollback.Some?, true)
    ensures failure.None? ==> dir.disk.entries == ApplyOp(old(dir.disk.entries), Move(c, f))
    ensures failure.Some? ==> Unpublished(dir.disk, p, c, true, swapped)
    ensures old(dir.Calm()) ==> dir.Calm() && failure.None?
    ensures old(dir.OneError()) && failure.Some? && rollback.Some? && p.was.Folder? ==>
              && InSight(dir.disk, p)
              && dir.disk.entries in {ApplyOp(old(dir.disk.entries), Move(c, f)),
                                      GivenBack(old(dir.disk.entries), f, rollback.value)}
  {
    SwapSteps(dir.disk, p, c, rollback.None?, rollback.Some?);
    if rollback.Some? { AsideIsPrior(dir.disk, p, false); }
    swapped := false;
    var st := dir.Rename(c, f, false);
    swapped := dir.disk != old(dir.disk);
    if st == Done { return None, true; }
    failure := Some(Raised(st));
    if rollback.Some? {
      var pst, there := dir.Present(f);
      if pst != Done { return Some(Raised(pst)), swapped; }
      if !there {
        failure := Restore(dir, c, p, f, rollback.value, failure.value);
      }
    }
  }

  // One restoration attempt, then the report of what it left.
  method Restore(dir: Parent, c: Name, ghost p: Plan, f: Name, rollback: Name, error: Failure)
    returns (failure: Option<Failure>)
    requires dir.Valid() && dir.disk.survivors == {dir.disk.entries} && Ready(dir.disk, p, c, false, true)
    requires f == Final(p.id) && rollback == Rollback(p.id, p.nonce)
    modifies dir`clock, dir`disk, dir`history, dir`log
    ensures dir.Valid() && old(dir.history) <= dir.history
    ensures AllProtected(dir.history, |old(dir.history)|, p)
    ensures failure.Some? && Unpublished(dir.disk, p, c, true, false)
    ensures old(dir.Calm()) ==> dir.Calm()
    ensures old(dir.Calm()) && CanRename(old(dir.disk), rollback, f) ==>
              failure == Some(error) && dir.disk.entries == GivenBack(old(dir.disk.entries), f, rollback)
    ensures dir.SteadyFrom(old(dir.clock) + 1) && f !in dir.disk.entries ==>
              failure.value.Incomplete? && Entry(rollback) in failure.value.residuals
  {
    RestoreSteps(dir.disk, p, false);
    var st, moved := RenameAndFlush(dir, rollback, f, p, false, true, true);
    if st == Done { return Some(error); }
    var there: bool;
    st, there := dir.Present(c);
    if st != Done { return Some(Raised(st)); }
    if !there { return Some(Incomplete({Entry(rollback)})); }
    var removed: bool;
    st, removed := Discard(dir, c, p);
    if st != Done { return Some(Raised(Interrupted)); }
    return Some(Incomplete(if removed then {Entry(rollback)} else {Entry(rollback), Entry(c)}));
  }

  method Discard(dir: Parent, c: Name, ghost p: Plan) returns (st: Status, removed: bool)
    requires dir.Valid() && Unpublished(dir.disk, p, c, true, false) && c in dir.disk.entries
    modifies dir`clock, dir`disk, dir`history, dir`log
    ensures dir.Valid() && old(dir.history) <= dir.history
    ensures AllProtected(dir.history, |old(dir.history)|, p)
    ensures Unpublished(dir.disk, p, c, true, false)
    ensures old(dir.Steady()) ==> st == Done
    ensures old(dir.Calm()) ==> dir.Calm()
  {
    ghost var before, mark := dir.disk, |dir.history|;
    st, removed := dir.RemoveTree(c);
    ShrunkElsewhere(before, dir.disk, c, p, true, true, false);
    forall k | mark <= k < |dir.history| ensures Protected(dir.history[k], p) {
      ShrunkElsewhere(before, dir.history[k], c, p, true, true, false);
    }
  }

  // The flushes and the removal of the rollback after the swap.
  method Settle(dir: Parent, ghost p: Plan, f: Name, rollback: Option<Name>) returns (failure: Option<Failure>)
    requires dir.Valid()
    requires Within(dir.disk, p, rollback.None?, rollback.Some?, true)
    requires f == Final(p.id) && f in dir.disk.entries && dir.disk.entries[f] == p.made
    requires rollback.Some? ==> rollback == Some(Rollback(p.id, p.nonce)) && rollback.value in dir.disk.entries
    modifies dir`clock, dir`disk, dir`history, dir`log
    ensures dir.Valid() && old(dir.history) <= dir.history
    ensures AllProtected(dir.history, |old(dir.history)|, p)
    ensures failure.None? ==> Within(dir.disk, p, false, false, true) && dir.disk.survivors == {dir.disk.entries}
    ensures dir.disk.entries.Keys <= old(dir.disk.entries).Keys && InSight(dir.disk, p)
    ensures failure.None? ==>
              dir.disk.entries
              == if rollback.Some? then old(dir.disk.entries) - {rollback.value} else old(dir.disk.entries)
    ensures old(dir.Calm()) ==> dir.Calm()
    ensures var aside := old(dir.disk.inodes);
            old(dir.Calm())
            && (rollback.Some? ==> SafeTree(aside[old(dir.disk.entries)[rollback.value]].node)) ==>
              failure.None?
  {
    var place := Entry(if rollback.Some? then rollback.value else f);
    var st := dir.FsyncParent();
    if st == OsError { return Some(Incomplete({place})); }
    if st != Done { return Some(Raised(Interrupted)); }
    if rollback.Some? {
      failure := RemoveAside(dir, p, rollback.value);
      if failure.Some? { return; }
    }
    st := dir.FsyncParent();
    if st == OsError { return Some(Incomplete({Entry(f)})); }
    if st != Done { return Some(Raised(Interrupted)); }
    return None;
  }

  method RemoveAside(dir: Parent, ghost p: Plan, rollback: Name) returns (failure: Option<Failure>)
    requires dir.Valid() && Within(dir.disk, p, false, false, true) && rollback == Rollback(p.id, p.nonce)
    requires rollback in dir.disk.entries && dir.disk.entries[rollback] != p.made
    modifies dir`clock, dir`disk, dir`history, dir`log
    ensures dir.Valid() && old(dir.history) <= dir.history
    ensures AllProtected(dir.history, |old(dir.history)|, p)
    ensures Within(dir.disk, p, false, false, true) && dir.disk.entries.Keys <= old(dir.disk.entries).Keys
    ensures failure.None? ==> dir.disk.entries == old(dir.disk.entries) - {rollback}
    ensures old(dir.Calm()) ==> dir.Calm()
    ensures old(dir.Calm()) && SafeTree(old(dir.disk.inodes)[old(dir.disk.entries)[rollback]].node) ==> failure.None?
  {
    ghost var before, mark := dir.disk, |dir.history|;
    var st, removed := dir.RemoveTree(rollback);
    ShrunkAsideCopy(before, dir.disk, rollback, p);
    forall k | mark <= k < |dir.history| ensures Protected(dir.history[k], p) {
      ShrunkAsideCopy(before, dir.history[k], rollback, p);
    }
    if st != Done { return Some(Raised(Interrupted)); }
    return if removed then None else Some(Incomplete({Entry(rollback)}));
  }

  // The final revalidation.
  method Revalidate(dir: Parent, g: Graph, f: Name) returns (outcome: Outcome)
    requires dir.Valid() && dir.kind == g.kind && f in dir.disk.entries
    modifies dir`clock, dir`log
    ensures dir.Valid()
    ensures outcome.Published? ==> !outcome.reused && MatchesCurrent(outcome.manifest, g)
    ensures outcome.Published? ==>
              Some(outcome.manifest) == Inspect(g.kind, g.entity, dir.disk.inodes[dir.disk.entries[f]].node)
    ensures old(dir.Calm()) ==> dir.Calm()
    ensures old(dir.Calm()) ==>
              var m := Inspect(g.kind, g.entity, dir.disk.inodes[dir.disk.entries[f]].node);
              outcome.Published? <==> m.Some? && MatchesCurrent(m.value, g)
  {
    var failure := RequireLive(dir, {Entry(f)});
    if failure.Some? { return Failed(failure.value); }
    var st, current := dir.InspectSet(f, g.entity);
    if st != Done { return Failed(Raised(Interrupted)); }
    if current.None? || !MatchesCurrent(current.value, g) { return Failed(Incomplete({Entry(f)})); }
    return Published(current.value, false);
  }

  // ---- The whole of `_publish_set` ----

  // What publication starts from: the start-up pass has left no rollback of
  // this ID in sight, and the two names the run draws are new.
  ghost predicate Prepared(d: Disk, id: string, c: Name, rollback: Name) {
    Alone(d.entries, id) && forall m | m in d.survivors :: c !in m && rollback !in m
  }

  // A crash now leaves the entry of this ID, whatever it is, at its name or under one rollback.
  ghost predicate Durable(d: Disk, p: Plan) {
    && (p.prior.Some? ==> p.prior.value in d.inodes && d.inodes[p.prior.value].clean)
    && forall m | m in d.survivors :: Standing(m, p) || SetAside(m, p)
  }

  ghost function PlanFor(d: Disk, id: string, nonce: string, made: Ino, next: Node): Plan
    requires ValidDisk(d)
  {
    var plain := forall m | m in d.survivors :: Plain(m, d.inodes, id);
    var prior := if Final(id) in d.entries then Some(d.entries[Final(id)]) else None;
    var was := if prior.Some? then d.inodes[prior.value].node else Special;
    var p := Plan(id, nonce, prior, was, made, next, true, plain);
    p.(firm := Durable(d, p))
  }

  // The prior set already says everything the new one would.
  predicate SameSet(prior: Manifest, manifest: Manifest, standing: Node, members: map<string, Data>) {
    && prior.sourceIds == manifest.sourceIds && prior.renderHash == manifest.renderHash
    && standing.Folder?
    && forall n | n in members :: n in standing.children && standing.children[n] == File(members[n])
  }

  // `_member_bytes_equal`: a read that fails counts as a difference.
  method MemberBytesEqual(dir: Parent, f: Name, prior: Manifest, manifest: Manifest, members: map<string, Data>)
    returns (st: Status, same: bool)
    requires dir.Valid() && f in dir.disk.entries
    modifies dir`clock
    ensures st == Done || st == Interrupted
    ensures same ==> st == Done && SameSet(prior, manifest, dir.disk.inodes[dir.disk.entries[f]].node, members)
    ensures old(dir.Calm()) ==> dir.Calm() && st == Done
    ensures old(dir.Calm()) ==> same == SameSet(prior, manifest, dir.disk.inodes[dir.disk.entries[f]].node, members)
    ensures old(dir.OneError()) ==> dir.OneError()
  {
    var fault := dir.Tick();
    if fault.Outcome() == Interrupted { return Interrupted, false; }
    return Done, fault.Fine? && SameSet(prior, manifest, dir.disk.inodes[dir.disk.entries[f]].node, members);
  }

  // The reuse short-circuit: nothing is published, the candidate goes away.
  method Reuse(dir: Parent, c: Name, ghost p: Plan, prior: Manifest) returns (outcome: Outcome)
    requires dir.Valid() && Unpublished(dir.disk, p, c, false, false)
    modifies dir`clock, dir`disk, dir`history, dir`log
    ensures dir.Valid() && Unpublished(dir.disk, p, c, false, false) && old(dir.history) <= dir.history
    ensures AllProtected(dir.history, |old(dir.history)|, p)
    ensures outcome.Published? ==> outcome == Published(prior, true) && dir.disk.survivors == {dir.disk.entries}
    ensures outcome.Published? ==> dir.disk.entries == old(dir.disk.entries) - {c}
    ensures old(dir.Calm()) ==> dir.Calm()
    ensures old(dir.Calm()) && (c in old(dir.disk.entries) ==> SafeTree(old(dir.disk.inodes)[p.made].node)) ==>
              outcome.Published?
  {
    var refused := CandidateCleanup(dir, c, p, false, false);
    if refused.Some? { return Failed(refused.value); }
    var st := dir.FsyncParent();
    if st == OsError { return Failed(Incomplete({WholeParent})); }
    if st != Done { return Failed(Raised(Interrupted)); }
    var failure := RequireLive(dir, {Entry(c)});
    return if failure.None? then Published(prior, true) else Failed(failure.value);
  }

  ghost predicate Unchanged(g: Graph, p: Plan, manifest: Manifest, members: map<string, Data>)
    requires Replaceable(g.kind, g, PriorNode(p))
  {
    p.prior.Some? && SameSet(Inspect(g.kind, g.entity, p.was).value, manifest, p.was, members)
  }

  // A replaceable prior set and no change: nothing else may be published over.
  predicate Replaceable(kind: Kind, g: Graph, standing: Option<Node>) {
    match standing
    case None => true
    case Some(n) => Inspect(kind, g.entity, n).Some? && MatchesPrior(Inspect(kind, g.entity, n).value, g)
  }

  // What stands at the final name, read before anything is touched.
  datatype Verdict = Refuse(failure: Failure) | Vacant | Current(prior: Manifest) | Stale(prior: Manifest)

  method Judge(dir: Parent, f: Name, g: Graph, members: map<string, Data>, manifest: Manifest)
    returns (verdict: Verdict)
    requires dir.Valid() && dir.kind == g.kind
    modifies dir`clock
    ensures verdict == Vacant ==> f !in dir.disk.entries
    ensures verdict.Current? || verdict.Stale? ==>
              f in dir.disk.entries && MatchesPrior(verdict.prior, g)
              && Inspect(g.kind, g.entity, dir.disk.inodes[dir.disk.entries[f]].node) == Some(verdict.prior)
    ensures verdict.Current? ==>
              SameSet(verdict.prior, manifest, dir.disk.inodes[dir.disk.entries[f]].node, members)
    ensures old(dir.Calm()) ==> dir.Calm() && (verdict.Refuse? ==> verdict.failure == Incomplete({Entry(f)}))
    ensures old(dir.Calm()) ==>
              var standing := if f in dir.disk.entries then Some(dir.disk.inodes[dir.disk.entries[f]].node) else None;
              && (verdict.Refuse? <==> !Replaceable(g.kind, g, standing))
              && (verdict.Stale? ==> !SameSet(verdict.prior, manifest, standing.value, members))
    ensures old(dir.OneError()) ==> dir.OneError()
  {
    var st, present := dir.Present(f);
    if st != Done { return Refuse(Raised(st)); }
    if !present { return Vacant; }
    var prior: Option<Manifest>;
    st, prior := dir.InspectSet(f, g.entity);
    if st != Done { return Refuse(Raised(Interrupted)); }
    if prior.None? || !MatchesPrior(prior.value, g) { return Refuse(Incomplete({Entry(f)})); }
    var same: bool;
    st, same := MemberBytesEqual(dir, f, prior.value, manifest, members);
    if st != Done { return Refuse(Raised(Interrupted)); }
    return if same then Current(prior.value) else Stale(prior.value);
  }

  // How a run without faults ends: it publishes exactly over what may be
  // replaced, and reuses exactly what would say the same.
  ghost predicate AsJudged(g: Graph, p: Plan, manifest: Manifest, members: map<string, Data>, outcome: Outcome) {
    if Replaceable(g.kind, g, PriorNode(p))
    then outcome.Published? && outcome.reused == Unchanged(g, p, manifest, members)
    else outcome == Failed(Incomplete({Entry(Final(p.id))}))
  }

  // A set is reused only where it says the same.
  ghost predicate ReusedRightly(p: Plan, manifest: Manifest, members: map<string, Data>, outcome: Outcome) {
    outcome.Published? && outcome.reused ==> SameSet(outcome.manifest, manifest, p.was, members)
  }

  // The verdict was read off the set the plan started from.
  ghost predicate Supported(g: Graph, p: Plan, manifest: Manifest, members: map<string, Data>, verdict: Verdict) {
    && (verdict.Vacant? ==> p.prior.None?)
    && (verdict.Current? || verdict.Stale? ==>
          p.prior.Some? && MatchesPrior(verdict.prior, g) && Inspect(g.kind, g.entity, p.was) == Some(verdict.prior))
    && (verdict.Current? ==> SameSet(verdict.prior, manifest, p.was, members))
  }

  // The body of the outer `try`. `swapped` records whether the candidate may
  // already stand at the final name; `aside` is the rollback it made.
  method SwapIn(dir: Parent, c: Name, g: Graph, members: map<string, Data>, manifest: Manifest, nonce: string,
                ghost p: Plan)
    returns (outcome: Outcome, published: bool, ghost swapped: bool)
    requires dir.Valid() && dir.kind == g.kind && g.entity == p.id && nonce == p.nonce
    requires Ready(dir.disk, p, c, true, false) && dir.disk.survivors == {dir.disk.entries}
    requires Inspect(g.kind, g.entity, p.next) == Some(manifest) && MatchesCurrent(manifest, g)
    requires Alone(dir.disk.entries, p.id)
    modifies dir
    ensures dir.Valid() && old(dir.history) <= dir.history
    ensures AllProtected(dir.history, |old(dir.history)|, p)
    ensures outcome.Failed? && !published ==> Unpublished(dir.disk, p, c, true, swapped)
    ensures outcome.Published? ==> Achieved(dir.disk, old(dir.disk.entries) - {c}, g, p, outcome)
    ensures ReusedRightly(p, manifest, members, outcome)
    ensures outcome.Failed? && published ==> c !in dir.disk.entries
    ensures old(dir.Calm()) ==> dir.Calm() && AsJudged(g, p, manifest, members, outcome)
    ensures old(dir.Calm()) && outcome.Failed? ==> dir.disk == old(dir.disk) && !published
    ensures old(dir.OneError()) ==> InSight(dir.disk, p)
  {
    var verdict := JudgePrior(dir, c, g, members, manifest, p);
    if verdict.Refuse? {
      outcome, published, swapped := Failed(verdict.failure), false, false;
    } else {
      outcome, published, swapped := SwapJudged(dir, c, g, members, manifest, nonce, verdict, p, old(dir.Calm()));
    }
  }

  lemma PriorStands(d: Disk, p: Plan, c: Name)
    requires ValidDisk(d) && Ready(d, p, c, true, false)
    ensures Final(p.id) in d.entries <==> p.prior.Some?
    ensures p.prior.Some? ==> d.inodes[d.entries[Final(p.id)]].node == p.was
  {
    assert Phase(d.entries, p, true, false, false);
  }

  // The verdict is on the set the plan started from.
  method JudgePrior(dir: Parent, c: Name, g: Graph, members: map<string, Data>, manifest: Manifest, ghost p: Plan)
    returns (verdict: Verdict)
    requires dir.Valid() && dir.kind == g.kind && g.entity == p.id && Ready(dir.disk, p, c, true, false)
    modifies dir`clock
    ensures Supported(g, p, manifest, members, verdict)
    ensures old(dir.Calm()) ==> dir.Calm() && (verdict.Refuse? ==> verdict.failure == Incomplete({Entry(Final(p.id))}))
    ensures old(dir.Calm()) ==> (verdict.Refuse? <==> !Replaceable(g.kind, g, PriorNode(p)))
    ensures old(dir.Calm()) && verdict.Stale? ==> !SameSet(verdict.prior, manifest, p.was, members)
    ensures old(dir.OneError()) ==> dir.OneError()
  {
    PriorStands(dir.disk, p, c);
    verdict := Judge(dir, Final(g.entity), g, members, manifest);
  }

  method SwapJudged(dir: Parent, c: Name, g: Graph, ghost members: map<string, Data>, ghost manifest: Manifest,
                    nonce: string, verdict: Verdict, ghost p: Plan, ghost calm: bool)
    returns (outcome: Outcome, published: bool, ghost swapped: bool)
    requires dir.Valid() && dir.kind == g.kind && g.entity == p.id && nonce == p.nonce && !verdict.Refuse?
    requires Ready(dir.disk, p, c, true, false) && dir.disk.survivors == {dir.disk.entries}
    requires CompleteSet(g.kind, g.entity, p.next) && MatchesCurrent(Inspect(g.kind, g.entity, p.next).value, g)
    requires Supported(g, p, manifest, members, verdict)
    requires Inspect(g.kind, g.entity, p.next) == Some(manifest)
    requires calm ==> dir.Calm() && (verdict.Stale? ==> !SameSet(verdict.prior, manifest, p.was, members))
    requires Alone(dir.disk.entries, p.id)
    modifies dir
    ensures dir.Valid() && old(dir.history) <= dir.history
    ensures AllProtected(dir.history, |old(dir.history)|, p)
    ensures outcome.Failed? && !published ==> Unpublished(dir.disk, p, c, true, swapped)
    ensures outcome.Published? ==> Achieved(dir.disk, old(dir.disk.entries) - {c}, g, p, outcome)
    ensures ReusedRightly(p, manifest, members, outcome)
    ensures outcome.Failed? && published ==> c !in dir.disk.entries
    ensures calm ==> dir.Calm() && outcome.Published? && outcome.reused == Unchanged(g, p, manifest, members)
    ensures old(dir.OneError()) ==> InSight(dir.disk, p)
  {
    published, swapped := false, false;
    match verdict {
      case Vacant =>
        outcome, published, swapped := Install(dir, c, g, p, Final(g.entity), None);
      case Current(prior) =>
        outcome := Reuse(dir, c, p, prior);
      case Stale(prior) =>
        outcome, published, swapped := Supplant(dir, c, g, p, Final(g.entity), Rollback(g.entity, nonce));
    }
  }

  // The portable fallback: the prior set goes aside, then the candidate takes its place.
  method Supplant(dir: Parent, c: Name, g: Graph, ghost p: Plan, f: Name, rollback: Name)
    returns (outcome: Outcome, published: bool, ghost swapped: bool)
    requires dir.Valid() && dir.kind == g.kind && g.entity == p.id && f == Final(p.id)
    requires Ready(dir.disk, p, c, true, false) && dir.disk.survivors == {dir.disk.entries}
    requires p.prior.Some? && rollback == Rollback(p.id, p.nonce) && CompleteSet(g.kind, g.entity, p.was)
    requires Alone(dir.disk.entries, p.id)
    requires CompleteSet(g.kind, g.entity, p.next) && MatchesCurrent(Inspect(g.kind, g.entity, p.next).value, g)
    modifies dir
    ensures dir.Valid() && old(dir.history) <= dir.history
    ensures AllProtected(dir.history, |old(dir.history)|, p)
    ensures outcome.Failed? && !published ==> Unpublished(dir.disk, p, c, true, swapped)
    ensures outcome.Failed? && published ==> c !in dir.disk.entries
    ensures outcome.Published? ==> !outcome.reused && Achieved(dir.disk, old(dir.disk.entries) - {c}, g, p, outcome)
    ensures old(dir.Calm()) ==> dir.Calm() && outcome.Published?
    ensures old(dir.OneError()) ==> InSight(dir.disk, p)
  {
    published, swapped := false, false;
    CompleteSetIsItsManifest(g.kind, g.entity, p.was);
    var failure := BoundMoveAside(dir, c, p, f, rollback);
    if failure.Some? {
      outcome := Failed(failure.value);
    } else {
      outcome, published, swapped := Install(dir, c, g, p, f, Some(rollback));
      if outcome.Published? { AsideAndBack(old(dir.disk.entries), f, rollback, c, dir.disk.entries[f]); }
    }
  }

  method BoundMoveAside(dir: Parent, c: Name, ghost p: Plan, f: Name, rollback: Name)
    returns (failure: Option<Failure>)
    requires dir.Valid() && Ready(dir.disk, p, c, true, false) && dir.disk.survivors == {dir.disk.entries}
    requires f == Final(p.id) && rollback == Rollback(p.id, p.nonce) && p.prior.Some? && p.was.Folder?
    requires Alone(dir.disk.entries, p.id)
    modifies dir
    ensures dir.Valid() && old(dir.history) <= dir.history
    ensures AllProtected(dir.history, |old(dir.history)|, p)
    ensures failure.Some? ==> Unpublished(dir.disk, p, c, true, false)
    ensures failure.None? ==> Ready(dir.disk, p, c, false, true) && dir.disk.survivors == {dir.disk.entries}
    ensures failure.None? ==> f in old(dir.disk.entries) && rollback !in old(dir.disk.entries)
    ensures failure.None? ==> rollback in dir.disk.entries && p.prior == Some(dir.disk.entries[rollback])
    ensures failure.None? ==> dir.disk.entries == ApplyOp(old(dir.disk.entries), Move(f, rollback))
    ensures old(dir.Calm()) ==> dir.Calm() && failure.None?
    ensures old(dir.OneError()) ==> if failure.None? then dir.OneError() else InSight(dir.disk, p)
  {
    assert Phase(dir.disk.entries, p, true, false, false);
    failure := RequireLive(dir, {Entry(c)});
    if failure.None? {
      failure := MoveAside(dir, c, p, f, rollback);
    }
  }

  lemma AsideAndBack(m: Listing, f: Name, rollback: Name, c: Name, i: Ino)
    requires f in m && rollback !in m && f != rollback && c != f
    ensures (ApplyOp(m, Move(f, rollback)) - {c, rollback})[f := i] == (m - {c})[f := i]
  {
  }

  // From the set-aside (if any) to the revalidated new set.
  method Install(dir: Parent, c: Name, g: Graph, ghost p: Plan, f: Name, rollback: Option<Name>)
    returns (outcome: Outcome, published: bool, ghost swapped: bool)
    requires dir.Valid() && dir.kind == g.kind && g.entity == p.id && f == Final(p.id)
    requires dir.disk.survivors == {dir.disk.entries} && Ready(dir.disk, p, c, rollback.None?, rollback.Some?)
    requires rollback.Some? ==> rollback == Some(Rollback(p.id, p.nonce)) && SafeTree(p.was)
    requires rollback.Some? ==> rollback.value in dir.disk.entries && p.prior == Some(dir.disk.entries[rollback.value])
    requires rollback.None? ==> p.prior.None?
    requires CompleteSet(g.kind, g.entity, p.next) && MatchesCurrent(Inspect(g.kind, g.entity, p.next).value, g)
    modifies dir`clock, dir`disk, dir`history, dir`log
    ensures dir.Valid() && old(dir.history) <= dir.history
    ensures AllProtected(dir.history, |old(dir.history)|, p)
    ensures outcome.Failed? && !published ==> Unpublished(dir.disk, p, c, true, swapped)
    ensures outcome.Failed? && published ==> c !in dir.disk.entries
    ensures outcome.Published? ==> !outcome.reused
    ensures outcome.Published? ==>
              Achieved(dir.disk, old(dir.disk.entries) - (if rollback.Some? then {c, rollback.value} else {c}), g, p,
                       outcome)
    ensures old(dir.Calm()) ==> dir.Calm() && outcome.Published?
    ensures old(dir.OneError()) && (rollback.Some? ==> p.was.Folder?) ==> InSight(dir.disk, p)
  {
    published, swapped := false, false;
    var failure := RequireLive(dir, if rollback.None? then {Entry(c)} else {Entry(c), Entry(rollback.value)});
    if failure.Some? { return Failed(failure.value), false, false; }
    failure, swapped := PutInPlace(dir, c, p, f, rollback);
    if failure.Some? { return Failed(failure.value), false, swapped; }
    outcome := Finish(dir, g, p, f, rollback);
    published := true;
    if outcome.Published? { SwappedListing(old(dir.disk.entries), dir.disk, c, g, p, rollback, outcome); }
  }

  lemma SwappedListing(m: Listing, d: Disk, c: Name, g: Graph, p: Plan, rollback: Option<Name>, outcome: Outcome)
    requires outcome.Published? && !outcome.reused && c in m && c != Final(g.entity)
    requires (rollback.Some? ==> rollback.value != Final(g.entity))
    requires var moved := ApplyOp(m, Move(c, Final(g.entity)));
      Achieved(d, if rollback.Some? then moved - {rollback.value} else moved, g, p, outcome)
    ensures Achieved(d, m - (if rollback.Some? then {c, rollback.value} else {c}), g, p, outcome)
  {
    var f, moved := Final(g.entity), ApplyOp(m, Move(c, Final(g.entity)));
    var i := d.entries[f];
    assert (if rollback.Some? then moved - {rollback.value} else moved)[f := i]
        == (m - (if rollback.Some? then {c, rollback.value} else {c}))[f := i];
  }

  // From the swap on: the new set is in place and only has to be settled and read back.
  method Finish(dir: Parent, g: Graph, ghost p: Plan, f: Name, rollback: Option<Name>) returns (outcome: Outcome)
    requires dir.Valid() && dir.kind == g.kind && g.entity == p.id && f == Final(p.id)
    requires Within(dir.disk, p, rollback.None?, rollback.Some?, true)
    requires f in dir.disk.entries && dir.disk.entries[f] == p.made
    requires rollback.Some? ==> rollback == Some(Rollback(p.id, p.nonce)) && rollback.value in dir.disk.entries
    requires rollback.Some? ==> SafeTree(dir.disk.inodes[dir.disk.entries[rollback.value]].node)
    requires CompleteSet(g.kind, g.entity, p.next) && MatchesCurrent(Inspect(g.kind, g.entity, p.next).value, g)
    modifies dir`clock, dir`disk, dir`history, dir`log
    ensures dir.Valid() && old(dir.history) <= dir.history
    ensures AllProtected(dir.history, |old(dir.history)|, p)
    ensures dir.disk.entries.Keys <= old(dir.disk.entries).Keys && InSight(dir.disk, p)
    ensures outcome.Published? ==> !outcome.reused
    ensures outcome.Published? ==>
      Achieved(dir.disk, if rollback.Some? then old(dir.disk.entries) - {rollback.value} else old(dir.disk.entries),
               g, p, outcome)
    ensures old(dir.Calm()) ==> dir.Calm() && outcome.Published?
  {
    var failure := Settle(dir, p, f, rollback);
    if failure.Some? { return Failed(failure.value); }
    outcome := Revalidate(dir, g, f);
  }

  // A successful publication: the listing is flushed, nothing else of this ID
  // is left, and the set at the final name is complete and agrees with the graph.
  ghost predicate Achieved(d: Disk, others: Listing, g: Graph, p: Plan, outcome: Outcome)
    requires outcome.Published?
  {
    var f := Final(g.entity);
    && f in d.entries && d.entries[f] in d.inodes
    && d.entries == others[f := d.entries[f]] && d.survivors == {d.entries}
    && d.inodes[d.entries[f]].node == (if outcome.reused then p.was else p.next)
    && (outcome.reused ==> p.prior.Some? && d.entries == others)
    && (p.firm || !outcome.reused ==> d.inodes[d.entries[f]].clean)
    && Inspect(g.kind, g.entity, d.inodes[d.entries[f]].node) == Some(outcome.manifest)
    && MatchesCurrent(outcome.manifest, g)
  }

  lemma PreparedStart(d: Disk, p: Plan, c: Name)
    requires ValidDisk(d) && Prepared(d, p.id, c, Rollback(p.id, p.nonce)) && p.made !in d.inodes
    requires p == PlanFor(d, p.id, p.nonce, p.made, p.next)
    ensures Within(d, p, true, true, false) && Standing(d.entries, p)
  {
    assert p.firm ==> forall m | m in d.survivors :: Phase(m, p, true, true, false);
  }

  // No other inode holds the tree that stands there, and none the tree to come.
  ghost predicate Distinct(d: Disk, p: Plan) {
    forall i | i in d.inodes :: d.inodes[i].node != p.next && (p.prior != Some(i) ==> d.inodes[i].node != p.was)
  }

  lemma OtherFolder(a: Node, b: Node) returns (n: Node)
    ensures SafeTree(n) && n != a && n != b
  {
    var one, two := Folder(map["1" := File(Text(""))]), Folder(map["2" := File(Text(""))]);
    assert "1" in one.children && "2" in two.children && "1" !in two.children;
    n := if Folder(map[]) != a && Folder(map[]) != b then Folder(map[]) else if one != a && one != b then one else two;
  }

  // Where the entry is not durable, some crash loses it before the run begins.
  lemma NotDurableIsLost(d: Disk, p: Plan, c: Name) returns (img: map<Name, Node>)
    requires ValidDisk(d) && Prepared(d, p.id, c, Rollback(p.id, p.nonce)) && Distinct(d, p) && !p.firm
    requires p == PlanFor(d, p.id, p.nonce, p.made, p.next)
    ensures CrashImage(d, img) && !OldOrNew(img, p.id, PriorNode(p), p.next)
  {
    var f := Final(p.id);
    if p.prior.Some? && !d.inodes[p.prior.value].clean {
      var n := OtherFolder(p.was, p.next);
      img := View(d)[f := n];
      assert ImageOf(d.entries, d.inodes, img);
      assert img[f] == n;
    } else {
      var m :| m in d.survivors && !Standing(m, p) && !SetAside(m, p);
      img := map n | n in m :: d.inodes[m[n]].node;
      assert ImageOf(m, d.inodes, img);
      NowhereInImage(d, m, p, img);
    }
  }

  lemma NowhereInImage(d: Disk, m: Listing, p: Plan, img: map<Name, Node>)
    requires ValidListing(m, d.inodes) && Distinct(d, p) && Rollback(p.id, p.nonce) !in m
    requires !Standing(m, p) && !SetAside(m, p)
    requires img.Keys == m.Keys && forall n | n in m :: img[n] == d.inodes[m[n]].node
    ensures !OldOrNew(img, p.id, PriorNode(p), p.next)
  {
    if p.prior.None? && Final(p.id) !in m {
      var k :| Rollback(p.id, k) in m;
      assert Rollback(p.id, k) in img;
    }
  }

  /** The hypothesis of the crash promise is exact: no crash before the run loses
      the entry that stands there if and only if the plan is firm. */
  lemma SafeBeforeIffFirm(d: Disk, p: Plan, c: Name)
    requires ValidDisk(d) && Prepared(d, p.id, c, Rollback(p.id, p.nonce)) && Distinct(d, p) && p.made !in d.inodes
    requires p == PlanFor(d, p.id, p.nonce, p.made, p.next)
    ensures p.firm <==> forall img | CrashImage(d, img) :: OldOrNew(img, p.id, PriorNode(p), p.next)
  {
    if p.firm {
      PreparedStart(d, p, c);
      forall img | CrashImage(d, img) ensures OldOrNew(img, p.id, PriorNode(p), p.next) {
        ProtectedMeansRecoverable(d, p, img);
      }
    } else {
      var img := NotDurableIsLost(d, p, c);
    }
  }

  // Once the candidate is flushed a crash leaves only what is in sight.
  lemma BuiltStands(start: Listing, d: Disk, p: Plan, c: Name)
    requires Unpublished(d, p, c, true, false) && d.survivors == {d.entries} && d.entries == start[c := p.made]
    requires Standing(start, p) && Alone(start, p.id)
    ensures Within(d, p, true, false, false) && Alone(d.entries, p.id)
  {
    assert Tame(d.entries, d.inodes, p);
  }

  /** `_publish_set`: if no crash could lose what stood at the final name before,
      then in every state of every run, from the one it found on, whatever fails
      or interrupts it, a crash leaves the old or the new tree at the final name,
      or an absent final name with exactly one rollback holding the old tree; and
      if every candidate a crash could bring back was a plain tree, each one still
      is. A success is durable and leaves nothing else behind; a run without
      faults succeeds exactly when the prior set may be replaced; and where one
      operation fails and nothing else, the final name is not left without a set. */
  method PublishSet(dir: Parent, g: Graph, members: map<string, Data>, createdAt: int,
                    candidateNonce: string, rollbackNonce: string, made: Ino, torn: Bytes)
    returns (outcome: Outcome, ghost p: Plan)
    requires dir.Valid() && dir.kind == g.kind && members.Keys == MemberNames(g.kind)
    requires made !in dir.disk.inodes
    requires Prepared(dir.disk, g.entity, Candidate(g.entity, candidateNonce), Rollback(g.entity, rollbackNonce))
    modifies dir
    ensures p == PlanFor(old(dir.disk), g.entity, rollbackNonce, made,
                         SetOf(members, BuildManifest(g, members, createdAt)))
    ensures dir.Valid() && old(dir.history) <= dir.history
    ensures PromiseKept(dir.history, |old(dir.history)| - 1, p)
    ensures outcome.Published? ==> Achieved(dir.disk, old(dir.disk.entries), g, p, outcome)
    ensures outcome.Published? ==> Delivered(dir.disk, g, members, createdAt, outcome)
    ensures outcome.Published? && outcome.reused ==> dir.disk.entries == old(dir.disk.entries)
    ensures outcome.Failed? ==> ReportedOrGone(dir, Candidate(g.entity, candidateNonce), outcome.failure)
    ensures old(dir.Calm()) ==>
      var found, f := old(View(dir.disk)), Final(g.entity);
      && dir.Calm() && (outcome.Published? <==> f !in found || MayReplace(g, found[f]))
      && (outcome.Published? ==> (outcome.reused <==> f in found && SaysTheSame(g, members, found[f])))
    ensures old(dir.Calm()) && outcome.Failed? ==> outcome == Failed(Incomplete({Entry(Final(g.entity))}))
    ensures old(dir.Calm()) && outcome.Failed? ==> dir.disk.entries == old(dir.disk.entries)
    ensures old(dir.OneError()) && Final(g.entity) in old(dir.disk.entries) ==>
      var before, after, f := old(View(dir.disk)), View(dir.disk), Final(g.entity);
      f in after && (after[f] == before[f] || after[f] == p.next)
  {
    var manifest := BuildManifest(g, members, createdAt);
    var c := Candidate(g.entity, candidateNonce);
    p := PlanFor(dir.disk, g.entity, rollbackNonce, made, SetOf(members, manifest));
    BuiltSetIsComplete(g, members, createdAt);
    PreparedStart(dir.disk, p, c);
    ghost var found: State, from := dir.disk, |dir.history|;
    outcome := Run(dir, c, g, members, manifest, rollbackNonce, made, torn, p);
    ProtectedFromStart(found, dir.history, from, p);
    if outcome.Published? { SetDelivered(dir.disk, old(dir.disk.entries), g, p, members, createdAt, outcome); }
    JudgedRightly(g, p, members, createdAt);
  }

  // The set at the final name is these members and the manifest returned, which
  // is the one built of them for this graph.
  ghost predicate Delivered(d: Disk, g: Graph, members: map<string, Data>, createdAt: int, outcome: Outcome)
    requires outcome.Published?
  {
    && Final(g.entity) in d.entries && d.entries[Final(g.entity)] in d.inodes
    && d.inodes[d.entries[Final(g.entity)]].node == SetOf(members, outcome.manifest)
    && outcome.manifest
       == BuildManifest(g, members, if outcome.reused then outcome.manifest.createdAt else createdAt)
  }

  lemma SetDelivered(d: Disk, others: Listing, g: Graph, p: Plan, members: map<string, Data>, createdAt: int,
                     outcome: Outcome)
    requires outcome.Published? && Achieved(d, others, g, p, outcome) && members.Keys == MemberNames(g.kind)
    requires p.next == SetOf(members, BuildManifest(g, members, createdAt))
    requires ReusedRightly(p, BuildManifest(g, members, createdAt), members, outcome)
    ensures Delivered(d, g, members, createdAt, outcome)
  {
    var m, n := outcome.manifest, d.inodes[d.entries[Final(g.entity)]].node;
    BuiltSetIsComplete(g, members, createdAt);
    MatchingMeans(m, g);
    CompleteSetIsItsManifest(g.kind, g.entity, n);
    if outcome.reused {
      assert forall k | k in members :: n.children[k] == File(members[k]);
      assert m.digests == map k | k in members :: Sha256(members[k]);
    }
  }

  // A set of the same production stands there, whatever the graph was then ...
  ghost predicate MayReplace(g: Graph, n: Node) {
    exists m :: IsSet(g.kind, g.entity, n, m) && SameProduction(m, g)
  }

  // ... and it was of the same sources and rendering, and of the same members.
  ghost predicate SaysTheSame(g: Graph, members: map<string, Data>, n: Node) {
    && (exists m :: IsSet(g.kind, g.entity, n, m) && Describes(m, g))
    && n.Folder? && forall k | k in members :: k in n.children && n.children[k] == File(members[k])
  }

  lemma JudgedRightly(g: Graph, p: Plan, members: map<string, Data>, createdAt: int)
    ensures Replaceable(g.kind, g, PriorNode(p)) <==> p.prior.None? || MayReplace(g, p.was)
    ensures Replaceable(g.kind, g, PriorNode(p)) ==>
      (Unchanged(g, p, BuildManifest(g, members, createdAt), members)
       <==> p.prior.Some? && SaysTheSame(g, members, p.was))
  {
    forall m ensures Inspect(g.kind, g.entity, p.was) == Some(m) <==> IsSet(g.kind, g.entity, p.was, m) {
      InspectMeans(g.kind, g.entity, p.was, m);
    }
    forall m ensures MatchesPrior(m, g) <==> SameProduction(m, g) ensures MatchesCurrent(m, g) <==> Describes(m, g) {
      MatchingMeans(m, g);
    }
  }

  lemma ProtectedFromStart(found: State, h: seq<State>, from: nat, p: Plan)
    requires 0 < from <= |h| && h[from - 1] == found && Within(found, p, true, true, false)
    requires AllProtected(h, from, p)
    ensures PromiseKept(h, from - 1, p)
  {
    ProtectedThroughout(h, from - 1, p);
  }

  // From `from` on, a crash leaves the old or the new set, and candidates as plain as they were found.
  ghost predicate PromiseKept(h: seq<State>, from: nat, p: Plan) {
    p.firm ==> forall k, img | from <= k < |h| && CrashImage(h[k], img) ::
      && OldOrNew(img, p.id, PriorNode(p), p.next)
      && (p.plain ==> Recoverable(img, p.id, PriorNode(p), p.next))
  }

  lemma ProtectedThroughout(h: seq<State>, from: nat, p: Plan)
    requires AllProtected(h, from, p)
    ensures PromiseKept(h, from, p)
  {
    if p.firm {
      forall k, img | from <= k < |h| && CrashImage(h[k], img)
        ensures OldOrNew(img, p.id, PriorNode(p), p.next)
        ensures p.plain ==> Recoverable(img, p.id, PriorNode(p), p.next)
      {
        ProtectedMeansRecoverable(h[k], p, img);
      }
    }
  }

  method Run(dir: Parent, c: Name, g: Graph, members: map<string, Data>, manifest: Manifest, nonce: string,
             made: Ino, torn: Bytes, ghost p: Plan)
    returns (outcome: Outcome)
    requires dir.Valid() && dir.kind == g.kind && members.Keys == MemberNames(g.kind)
    requires Within(dir.disk, p, true, true, false) && c.Candidate? && c.id == p.id == g.entity
    requires Standing(dir.disk.entries, p) && Alone(dir.disk.entries, p.id)
    requires forall m | m in dir.disk.survivors :: c !in m
    requires made == p.made && made !in dir.disk.inodes && nonce == p.nonce
    requires p.next == SetOf(members, manifest)
    requires Inspect(g.kind, g.entity, p.next) == Some(manifest) && MatchesCurrent(manifest, g)
    modifies dir
    ensures dir.Valid() && old(dir.history) <= dir.history
    ensures AllProtected(dir.history, |old(dir.history)|, p)
    ensures outcome.Published? ==> Achieved(dir.disk, old(dir.disk.entries), g, p, outcome)
    ensures ReusedRightly(p, manifest, members, outcome)
    ensures outcome.Failed? ==> ReportedOrGone(dir, c, outcome.failure)
    ensures old(dir.Calm()) ==> dir.Calm() && AsJudged(g, p, manifest, members, outcome)
    ensures old(dir.Calm()) && outcome.Failed? ==> dir.disk.entries == old(dir.disk.entries)
    ensures old(dir.OneError()) ==> InSight(dir.disk, p)
  {
    var failure := BuildCandidate(dir, c, g, members, manifest, torn, made, p);
    if failure.Some? { return Failed(failure.value); }
    BuiltStands(old(dir.disk.entries), dir.disk, p, c);
    assert dir.disk.entries - {c} == old(dir.disk.entries);
    outcome := SwapOrClean(dir, c, g, members, manifest, nonce, p);
  }

  // The outer `try` and its handler, which cleans the candidate up after a failure before the swap.
  method SwapOrClean(dir: Parent, c: Name, g: Graph, members: map<string, Data>, manifest: Manifest, nonce: string,
                     ghost p: Plan)
    returns (outcome: Outcome)
    requires dir.Valid() && dir.kind == g.kind && g.entity == p.id && nonce == p.nonce
    requires Ready(dir.disk, p, c, true, false) && dir.disk.survivors == {dir.disk.entries}
    requires Inspect(g.kind, g.entity, p.next) == Some(manifest) && MatchesCurrent(manifest, g)
    requires Alone(dir.disk.entries, p.id)
    modifies dir
    ensures dir.Valid() && old(dir.history) <= dir.history
    ensures AllProtected(dir.history, |old(dir.history)|, p)
    ensures outcome.Published? ==> Achieved(dir.disk, old(dir.disk.entries) - {c}, g, p, outcome)
    ensures ReusedRightly(p, manifest, members, outcome)
    ensures outcome.Failed? ==> ReportedOrGone(dir, c, outcome.failure)
    ensures old(dir.Calm()) ==> dir.Calm() && AsJudged(g, p, manifest, members, outcome)
    ensures old(dir.Calm()) && outcome.Failed? ==> dir.disk.entries == old(dir.disk.entries) - {c}
    ensures old(dir.OneError()) ==> InSight(dir.disk, p)
  {
    var published: bool;
    ghost var swapped: bool;
    outcome, published, swapped := SwapIn(dir, c, g, members, manifest, nonce, p);
    if outcome.Failed? && !published {
      var error := CleanOrReport(dir, c, outcome.failure, p, true, swapped);
      outcome := Failed(error);
    }
  }
}
