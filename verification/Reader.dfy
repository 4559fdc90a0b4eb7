// The reader that publishes nothing: it looks at the final entry by pathname,
// one observation at a time, while publishers change the parent in between.
module Reader {
  import opened Basics
  import opened Disk
  import opened ManagedSet
  import opened Publish

  datatype Verdict = CurrentRead(members: map<string, Data>) | NotCurrent | ResidualState | Changed

  // What the reader sees: the parent at every instant, the instant of its n-th
  // observation, and whether that observation's read succeeds.
  datatype World = World(state: nat -> State, time: nat -> nat, succeeds: nat -> bool) {
    ghost predicate Forward() {
      forall i: nat, j: nat | i <= j :: time(i) <= time(j)
    }

    function Identity(f: Name, at: nat): Option<Ino> {
      var d := state(time(at));
      if f in d.entries then Some(d.entries[f]) else None
    }

    // The directory standing at `f` when observation `at` is made, if it can be read.
    function Directory(f: Name, at: nat): Option<Node> {
      var d := state(time(at));
      if succeeds(at) && f in d.entries && d.inodes[d.entries[f]].node.Folder?
      then Some(d.inodes[d.entries[f]].node) else None
    }

    function ReadFile(f: Name, name: string, at: nat): Option<Data> {
      match Directory(f, at)
      case None => None
      case Some(n) => if name in n.children && n.children[name].File? then Some(n.children[name].data) else None
    }
  }

  // At observation `at` the entry `f` held the manifest `m` in its canonical bytes.
  ghost predicate Held(w: World, f: Name, at: nat, m: Manifest) {
    w.ReadFile(f, MANIFEST, at) == Some(ManifestText(m))
  }

  // The members whose digest the manifest names.
  ghost predicate Vouched(m: Manifest, members: map<string, Data>) {
    forall n | n in members :: n in m.digests && m.digests[n] == Sha256(members[n])
  }

  // Observation `at` read the member `n` and found the digest that `m` names.
  ghost predicate Matched(w: World, f: Name, m: Manifest, n: string, at: nat) {
    n in m.digests && w.ReadFile(f, n, at).Some? && Sha256(w.ReadFile(f, n, at).value) == m.digests[n]
  }

  // Some observation from `from` up to `to` did that, for every member.
  ghost predicate AllMatched(w: World, f: Name, m: Manifest, from: nat, to: nat) {
    forall n | n in m.digests :: exists at: nat :: from <= at < to && Matched(w, f, m, n, at)
  }

  ghost predicate Listed(kind: Kind, w: World, f: Name, at: nat) {
    w.Directory(f, at).Some? && w.Directory(f, at).value.children.Keys == MemberNames(kind) + {MANIFEST}
  }

  ghost predicate Identified(kind: Kind, entity: string, w: World, f: Name, at: nat) {
    exists m :: Held(w, f, at, m) && m.kind == kind && SchemaValid(m) && m.entity == entity
  }

  // What observation `why` saw is no complete set; `seen` is where the manifest was read.
  ghost predicate Defect(kind: Kind, entity: string, w: World, f: Name, seen: nat, why: nat) {
    || !Listed(kind, w, f, why)
    || !Identified(kind, entity, w, f, why)
    || (seen < why && exists m :: Held(w, f, seen, m) && Differs(w, f, m, why))
  }

  ghost predicate Differs(w: World, f: Name, m: Manifest, at: nat) {
    exists n :: n in m.digests && !Matched(w, f, m, n, at)
  }

  // Nothing changes while the reader looks, and every read succeeds.
  ghost predicate Quiet(w: World, d: State) {
    forall i: nat :: w.state(w.time(i)) == d && w.succeeds(i)
  }

  // One pass over the members against the digests of `m`, stopping at the first that fails or differs.
  method ReadMembers(m: Manifest, f: Name, w: World, from: nat, ghost d: State)
    returns (members: map<string, Data>, next: nat, why: nat)
    ensures from <= next && members.Keys <= m.digests.Keys && Vouched(m, members)
    ensures members.Keys == m.digests.Keys ==> AllMatched(w, f, m, from, next)
    ensures members.Keys != m.digests.Keys ==> from <= why < next && Differs(w, f, m, why)
    ensures Quiet(w, d) ==> (members.Keys == m.digests.Keys <==> forall n | n in m.digests :: Matched(w, f, m, n, 0))
  {
    members, next, why := map[], from, from;
    var todo := m.digests.Keys;
    while todo != {}
      invariant from <= next && members.Keys == m.digests.Keys - todo && Vouched(m, members) && todo <= m.digests.Keys
      invariant forall n | n in members :: exists at: nat :: from <= at < next && Matched(w, f, m, n, at)
      decreases |todo|
    {
      var n :| n in todo;
      var data := w.ReadFile(f, n, next);
      why, next := next, next + 1;
      if data.None? || Sha256(data.value) != m.digests[n] {
        assert !Matched(w, f, m, n, why) && n !in members;
        QuietMatch(w, f, m, d);
        return;
      }
      assert Matched(w, f, m, n, why);
      members := members[n := data.value];
      todo := todo - {n};
    }
    QuietMatch(w, f, m, d);
  }

  lemma QuietMatch(w: World, f: Name, m: Manifest, d: State)
    ensures Quiet(w, d) ==> forall n, i: nat, j: nat | Matched(w, f, m, n, i) :: Matched(w, f, m, n, j)
  {
  }

  ghost function InspectStanding(kind: Kind, entity: string, f: Name, d: State): Option<Manifest> {
    if f in d.entries then Inspect(kind, entity, d.inodes[d.entries[f]].node) else None
  }

  // `_inspect_set`, one pathname read after the other: `seen` is the reading of
  // the manifest, and where there is none to return, `why` is what spoke against it.
  method InspectMoving(kind: Kind, entity: string, f: Name, w: World, from: nat, ghost d: State)
    returns (manifest: Option<Manifest>, next: nat, seen: nat, why: nat)
    ensures from < next
    ensures manifest.Some? ==> from < seen < next && ManifestRead(kind, entity, f, w, from, seen, manifest.value)
    ensures manifest.Some? ==> AllMatched(w, f, manifest.value, seen + 1, next)
    ensures manifest.None? ==> from <= why < next && Defect(kind, entity, w, f, seen, why)
    ensures Quiet(w, d) ==> manifest == InspectStanding(kind, entity, f, d)
  {
    manifest, next, seen, why := FindManifest(kind, entity, f, w, from, d);
    if manifest.Some? {
      QuietInspect(kind, entity, f, w, manifest.value, from, d);
      var members;
      members, next, why := ReadMembers(manifest.value, f, w, next, d);
      if members.Keys != manifest.value.digests.Keys { manifest := None; }
    }
  }

  // A directory of the right names, and in it the canonical bytes of a valid manifest.
  ghost predicate ManifestRead(kind: Kind, entity: string, f: Name, w: World, from: nat, seen: nat, m: Manifest) {
    && Listed(kind, w, f, from) && Held(w, f, seen, m)
    && SchemaValid(m) && m.kind == kind && m.entity == entity
  }

  method FindManifest(kind: Kind, entity: string, f: Name, w: World, from: nat, ghost d: State)
    returns (manifest: Option<Manifest>, next: nat, seen: nat, why: nat)
    ensures manifest.Some? ==> seen == from + 1 && next == from + 2
    ensures manifest.Some? ==> ManifestRead(kind, entity, f, w, from, seen, manifest.value)
    ensures manifest.None? ==> from <= why < next && Defect(kind, entity, w, f, seen, why)
    ensures Quiet(w, d) && manifest.None? ==> InspectStanding(kind, entity, f, d) == None
  {
    next, seen, why := from + 1, from + 1, from;
    assert Quiet(w, d) ==> w.state(w.time(from)) == d && w.state(w.time(from + 1)) == d;
    var listing := w.Directory(f, from);
    if listing.None? || listing.value.children.Keys != MemberNames(kind) + {MANIFEST} {
      return None, next, seen, why;
    }
    var stored := w.ReadFile(f, MANIFEST, next);
    next, why := next + 1, from + 1;
    if stored.None? || !stored.value.ManifestText? { return None, next, seen, why; }
    var m := stored.value.manifest;
    if m.kind != kind || !SchemaValid(m) || m.entity != entity {
      assert forall o | Held(w, f, why, o) :: o == m;
      return None, next, seen, why;
    }
    return Some(m), next, seen, why;
  }

  // On a directory that does not change, the moving reads amount to `Inspect`.
  lemma QuietInspect(kind: Kind, entity: string, f: Name, w: World, m: Manifest, at: nat, d: State)
    requires ManifestRead(kind, entity, f, w, at, at + 1, m)
    ensures Quiet(w, d) ==>
      InspectStanding(kind, entity, f, d)
      == if forall n | n in m.digests :: Matched(w, f, m, n, 0) then Some(m) else None
  {
    if Quiet(w, d) {
      assert w.state(w.time(at)) == d && w.state(w.time(at + 1)) == d && w.state(w.time(0)) == d && w.succeeds(0);
      var node := d.inodes[d.entries[f]].node;
      assert forall n | n in m.digests ::
          Matched(w, f, m, n, 0) <==> node.children[n].File? && Sha256(node.children[n].data) == m.digests[n];
    }
  }

  // What the reading of one unchanging directory must say.
  ghost function Expected(g: Graph, d: State): Verdict {
    if Final(g.entity) !in d.entries then NotCurrent
    else match InspectStanding(g.kind, g.entity, Final(g.entity), d)
      case None => ResidualState
      case Some(m) =>
        if !SameProduction(m, g) then ResidualState
        else if !Describes(m, g) then NotCurrent
        else CurrentRead(map n | n in m.digests :: m.digests[n].of)
  }

  // The evidence behind a verdict, all of it observed before `last`: the manifest at
  // `seen`, the members against it before `checked` and again from there on, or the defect at `why`.
  ghost predicate Founded(g: Graph, w: World, verdict: Verdict, seen: nat, checked: nat, why: nat, last: nat) {
    var f := Final(g.entity);
    match verdict
    case CurrentRead(members) =>
      && 0 < seen < checked <= last && w.time(seen) <= w.time(last)
      && exists m ::
           && Held(w, f, seen, m) && Describes(m, g)
           && members == (map n | n in m.digests :: m.digests[n].of)
           && AllMatched(w, f, m, seen + 1, checked) && AllMatched(w, f, m, checked, last)
    case NotCurrent =>
      && 0 < seen < checked <= last && w.time(seen) <= w.time(last)
      && exists m ::
           && Held(w, f, seen, m) && SameProduction(m, g) && !Describes(m, g)
           && AllMatched(w, f, m, seen + 1, checked)
    case ResidualState =>
      && 0 < why < last && w.time(why) <= w.time(last)
      && (Defect(g.kind, g.entity, w, f, seen, why) || exists m :: Held(w, f, why, m) && !SameProduction(m, g))
    case Changed => true
  }

  /** `read_current_assessment_members`, from the identification of the entry
      on. Observation 0 identifies the entry and `last`, after every other one,
      identifies it again: where the two differ the verdict is `Changed`, and
      every other verdict rests on what was observed in between. A current
      verdict returns exactly the bytes one manifest names, read twice; over a
      directory that does not change the verdict is the one `Expected`. */
  method ReadCurrent(g: Graph, w: World)
    returns (verdict: Verdict, seen: nat, checked: nat, why: nat, last: nat)
    requires w.Forward()
    ensures last == 0 <==> w.Identity(Final(g.entity), 0).None?
    ensures last == 0 ==> verdict.NotCurrent?
    ensures last > 0 ==>
              (verdict.Changed? <==> w.Identity(Final(g.entity), last) != w.Identity(Final(g.entity), 0))
    ensures last > 0 ==> Founded(g, w, verdict, seen, checked, why, last)
    ensures forall d | Quiet(w, d) :: verdict == Expected(g, d)
  {
    var f := Final(g.entity);
    var identity := w.Identity(f, 0);
    ghost var d: State := w.state(w.time(0));
    assert forall o | Quiet(w, o) :: w.state(w.time(0)) == o;
    if identity.None? { return NotCurrent, 0, 0, 0, 0; }
    verdict, seen, checked, why, last := ReadIdentified(g, w, d);
    assert forall o | Quiet(w, o) :: w.state(w.time(last)) == o;
    if w.Identity(f, last) != identity { verdict := Changed; }
  }

  // Everything between the two identifications.
  method ReadIdentified(g: Graph, w: World, ghost d: State)
    returns (verdict: Verdict, seen: nat, checked: nat, why: nat, last: nat)
    requires w.Forward() && d == w.state(w.time(0)) && Final(g.entity) in d.entries
    ensures 0 < last && !verdict.Changed? && Founded(g, w, verdict, seen, checked, why, last)
    ensures Quiet(w, d) ==> verdict == Expected(g, d)
  {
    var f := Final(g.entity);
    var folder := w.Directory(f, 1);
    if folder.None? {
      assert Quiet(w, d) ==> w.state(w.time(1)) == d;
      return ResidualState, 1, 2, 1, 2;
    }
    var manifest: Option<Manifest>;
    manifest, checked, seen, why := InspectMoving(g.kind, g.entity, f, w, 2, d);
    if manifest.None? {
      verdict, last := ResidualState, checked;
    } else {
      verdict, why, last := Compare(g, w, manifest.value, seen, checked, d);
    }
  }

  // The comparisons with the graph, and the second reading of the members.
  method Compare(g: Graph, w: World, m: Manifest, seen: nat, checked: nat, ghost d: State)
    returns (verdict: Verdict, why: nat, last: nat)
    requires w.Forward() && 0 < seen < checked && Held(w, Final(g.entity), seen, m)
    requires AllMatched(w, Final(g.entity), m, seen + 1, checked)
    requires Final(g.entity) in d.entries
    requires Quiet(w, d) ==> InspectStanding(g.kind, g.entity, Final(g.entity), d) == Some(m)
    ensures 0 < last && !verdict.Changed? && Founded(g, w, verdict, seen, checked, why, last)
    ensures Quiet(w, d) ==> verdict == Expected(g, d)
  {
    var f := Final(g.entity);
    why, last := seen, checked;
    MatchingMeans(m, g);
    if !MatchesPrior(m, g) { return ResidualState, why, last; }
    if !MatchesCurrent(m, g) { return NotCurrent, why, last; }
    var members;
    members, last, why := ReadMembers(m, f, w, checked, d);
    if members.Keys != m.digests.Keys {
      QuietAgain(w, f, m, seen + 1, checked, why, d);
      verdict := ResidualState;
    } else {
      VouchedAll(m, members);
      verdict := CurrentRead(members);
    }
  }

  lemma VouchedAll(m: Manifest, members: map<string, Data>)
    requires Vouched(m, members) && members.Keys == m.digests.Keys
    ensures members == map n | n in m.digests :: m.digests[n].of
  {
  }

  // What matched once in a directory that does not change cannot differ later.
  lemma QuietAgain(w: World, f: Name, m: Manifest, from: nat, to: nat, at: nat, d: State)
    requires AllMatched(w, f, m, from, to) && Differs(w, f, m, at)
    ensures !Quiet(w, d)
  {
    QuietMatch(w, f, m, d);
    var n :| n in m.digests && !Matched(w, f, m, n, at);
    var i: nat :| from <= i < to && Matched(w, f, m, n, i);
  }

  // ---- The reader beside a publisher ----

  // In every state of the world the final entry, when present, is a whole set.
  ghost predicate WholeSets(w: World, kind: Kind, id: string) {
    forall t: nat ::
      Final(id) in w.state(t).entries ==> CompleteSet(kind, id, w.state(t).inodes[w.state(t).entries[Final(id)]].node)
  }

  /** Then a current verdict returns exactly the member bytes of one single
      published set that agrees with the graph, never a mix of two. */
  lemma CurrentIsOnePublishedSet(g: Graph, w: World, seen: nat, m: Manifest, members: map<string, Data>)
    requires WholeSets(w, g.kind, g.entity)
    requires Held(w, Final(g.entity), seen, m) && Describes(m, g)
    requires members == map n | n in m.digests :: m.digests[n].of
    ensures var d := w.state(w.time(seen));
            && Final(g.entity) in d.entries
            && d.inodes[d.entries[Final(g.entity)]].node == SetOf(members, m)
            && Inspect(g.kind, g.entity, SetOf(members, m)) == Some(m)
  {
    var d := w.state(w.time(seen));
    CompleteSetIsItsManifest(g.kind, g.entity, d.inodes[d.entries[Final(g.entity)]].node);
  }

  /** A publisher keeps that promise: in a world that only ever shows states of
      one publication, whatever fails in it, the final entry is the old or the
      new set, whole. */
  lemma PublisherShowsWholeSets(w: World, kind: Kind, h: seq<State>, from: nat, p: Plan)
    requires PromiseKept(h, from, p) && p.firm
    requires CompleteSet(kind, p.id, p.next) && (p.prior.Some? ==> CompleteSet(kind, p.id, p.was))
    requires forall t: nat :: exists k :: from <= k < |h| && w.state(t) == h[k]
    ensures WholeSets(w, kind, p.id)
  {
    forall t: nat | Final(p.id) in w.state(t).entries
      ensures CompleteSet(kind, p.id, w.state(t).inodes[w.state(t).entries[Final(p.id)]].node)
    {
      OldOrNewAt(w, h, from, p, t);
    }
  }

  /** A reader beside a publisher: it returns the members of the old set or of
      the new one, as published, or none. */
  method ReadBesidePublisher(g: Graph, w: World, ghost h: seq<State>, ghost from: nat, ghost p: Plan)
    returns (verdict: Verdict)
    requires w.Forward() && p.id == g.entity && PromiseKept(h, from, p) && p.firm
    requires CompleteSet(g.kind, p.id, p.next) && (p.prior.Some? ==> CompleteSet(g.kind, p.id, p.was))
    requires forall t: nat :: exists k :: from <= k < |h| && w.state(t) == h[k]
    ensures verdict.CurrentRead? ==>
              exists m :: && Describes(m, g) && Inspect(g.kind, g.entity, SetOf(verdict.members, m)) == Some(m)
                          && (SetOf(verdict.members, m) == p.next || PriorNode(p) == Some(SetOf(verdict.members, m)))
  {
    var seen, checked, why, last;
    verdict, seen, checked, why, last := ReadCurrent(g, w);
    PublisherShowsWholeSets(w, g.kind, h, from, p);
    if verdict.CurrentRead? {
      ghost var m :| Held(w, Final(g.entity), seen, m) && Describes(m, g)
                     && verdict.members == (map n | n in m.digests :: m.digests[n].of);
      CurrentIsOnePublishedSet(g, w, seen, m, verdict.members);
      OldOrNewAt(w, h, from, p, w.time(seen));
    }
  }

  lemma OldOrNewAt(w: World, h: seq<State>, from: nat, p: Plan, t: nat)
    requires PromiseKept(h, from, p) && p.firm && exists k :: from <= k < |h| && w.state(t) == h[k]
    requires Final(p.id) in w.state(t).entries
    ensures var n := w.state(t).inodes[w.state(t).entries[Final(p.id)]].node;
            n == p.next || PriorNode(p) == Some(n)
  {
    var k :| from <= k < |h| && w.state(t) == h[k];
    var d := h[k];
    assert ImageOf(d.entries, d.inodes, View(d));
    assert CrashImage(d, View(d));
    assert OldOrNew(View(h[k]), p.id, PriorNode(p), p.next);
  }
}
