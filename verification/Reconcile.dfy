// The start-up pass over one managed parent: abandoned candidates go, a lone
// complete rollback is promoted, superseded rollbacks go, the rest is reported.
module Reconcile {
  import opened Basics
  import opened Disk
  import opened ManagedSet
  import opened Directory
  import opened Publish
  import opened Tidy
  import opened PassStates

  // ---- The pass itself ----

  datatype Report = Residual(places: set<Place>) | Escaped(failure: Failure)

  // In sight, `n` is the same in both states.
  ghost predicate Same(a: State, b: State, n: Name) {
    && (n in b.entries <==> n in a.entries)
    && (n in b.entries ==> b.entries[n] == a.entries[n] && b.inodes[b.entries[n]] == a.inodes[a.entries[n]])
  }

  // No name outside `names` has changed.
  ghost predicate Elsewhere(a: State, b: State, names: set<Name>) {
    forall n | n !in names :: Same(a, b, n)
  }

  // A complete set was found at the final name.
  ghost predicate FinalFound(kind: Kind, d0: State, id: string) {
    Final(id) in d0.entries && CompleteSet(kind, id, Found(d0, Final(id)))
  }

  ghost predicate ReachSince(kind: Kind, syncs: bool, d0: State, h: seq<State>, from: nat) {
    forall k | from <= k < |h| :: Reach(kind, syncs, d0, h[k])
  }

  lemma MoveOver<T>(done: set<T>, todo: set<T>, x: T)
    requires done !! todo && x in todo
    ensures (done + {x}) !! (todo - {x}) && (done + {x}) + (todo - {x}) == done + todo && done + {x} <= done + todo
  {
  }

  lemma SinceJoin(kind: Kind, syncs: bool, d0: State, h: seq<State>, longer: seq<State>, from: nat)
    requires h <= longer && from <= |h|
    requires ReachSince(kind, syncs, d0, h, from) && ReachSince(kind, syncs, d0, longer, |h|)
    ensures ReachSince(kind, syncs, d0, longer, from)
  {
    forall k | from <= k < |longer| ensures Reach(kind, syncs, d0, longer[k]) {
      if k < |h| { assert longer[k] == h[k]; }
    }
  }

  lemma SinceMore(kind: Kind, syncs: bool, d0: State, h: seq<State>, from: nat)
    requires ReachSince(kind, false, d0, h, from)
    ensures ReachSince(kind, syncs, d0, h, from)
  {
    forall k | from <= k < |h| ensures Reach(kind, syncs, d0, h[k]) {
      ReachMore(kind, syncs, d0, h[k]);
    }
  }

  // Some state since `from` was reached without a sync, and in sight it was `v`.
  ghost predicate Unsynced(kind: Kind, d0: State, h: seq<State>, from: int, v: Tree) {
    exists k: nat :: from <= k < |h| && Reach(kind, false, d0, h[k]) && View(h[k]) == v
  }

  lemma ShrunkIsElsewhere(a: State, b: State, n: Name)
    requires n in a.entries && Shrunk(a, b, n)
    ensures Elsewhere(a, b, {n})
  {
  }

  // Removing a doomed entry is a step of the pass; an unsafe candidate stays untouched.
  lemma RemovalReached(kind: Kind, syncs: bool, d0: State, a: State, b: State, n: Name, done: set<Name>)
    requires n in a.entries && Same(d0, a, n) && Shrunk(a, b, n)
    requires Reach(kind, syncs, d0, a) && Elsewhere(d0, a, done)
    requires n.Candidate? || Doomed(kind, d0, n)
    ensures Reach(kind, syncs, d0, b) && Elsewhere(d0, b, done + {n}) && Elsewhere(a, b, {n})
  {
    if Doomed(kind, d0, n) {
      assert Removes(kind, d0, a, b, n);
    } else {
      assert b.inodes == a.inodes;
    }
    ReachStep(kind, syncs, d0, a, b);
    ShrunkIsElsewhere(a, b, n);
    ElsewhereJoin(d0, a, b, done, {n});
  }

  lemma PromotionReached(kind: Kind, syncs: bool, d0: State, a: State, b: State, id: string, k: string, done: set<Name>)
    requires Reach(kind, syncs, d0, a) && Elsewhere(d0, a, done)
    requires Final(id) !in done && forall j :: Rollback(id, j) !in done
    requires Promotes(kind, View(d0), id, k) && b == Change(a, Promotion(id, k))
    ensures Reach(kind, syncs, d0, b) && Elsewhere(d0, b, done + {Rollback(id, k), Final(id)})
  {
    assert Same(d0, a, Rollback(id, k)) && Same(d0, a, Final(id));
    assert Promotable(kind, d0, a, id, k);
    ReachStep(kind, syncs, d0, a, b);
    forall n | n !in done + {Rollback(id, k), Final(id)} ensures Same(d0, b, n) {
      assert Same(d0, a, n);
    }
  }

  ghost predicate SweptSoFar(d0: State, d: State, swept: set<Name>, residuals: set<Place>)
    requires swept <= d0.entries.Keys
  {
    && (forall c | c in swept :: c in d.entries <==> !SafeTree(Found(d0, c)))
    && (forall c | c in swept && c in d.entries :: Same(d0, d, c))
    && residuals == set c | c in swept && !SafeTree(Found(d0, c)) :: Entry(c)
  }

  lemma SweepStep(d0: State, a: State, b: State, c: Name, swept: set<Name>, residuals: set<Place>)
    requires swept <= d0.entries.Keys && c in d0.entries && c !in swept
    requires SweptSoFar(d0, a, swept, residuals) && Same(d0, a, c)
    requires if SafeTree(Found(d0, c)) then c !in b.entries && Elsewhere(a, b, {c}) else b == a
    ensures SweptSoFar(d0, b, swept + {c}, if SafeTree(Found(d0, c)) then residuals else residuals + {Entry(c)})
  {
    forall x | x in swept ensures x in b.entries ==> Same(d0, b, x) {
      if x in b.entries { assert x in a.entries && Same(d0, a, x); }
    }
  }

  // Remove one candidate, or one rollback beside its complete final set.
  method DropEntry(dir: Parent, n: Name, ghost syncs: bool, ghost d0: State, ghost done: set<Name>)
    returns (st: Status, removed: bool)
    requires dir.Valid() && n in dir.disk.entries && Same(d0, dir.disk, n)
    requires Reach(dir.kind, syncs, d0, dir.disk) && Elsewhere(d0, dir.disk, done)
    requires n.Candidate? || Doomed(dir.kind, d0, n)
    modifies dir`clock, dir`disk, dir`history, dir`log
    ensures dir.Valid() && old(dir.history) <= dir.history
    ensures ReachSince(dir.kind, syncs, d0, dir.history, |old(dir.history)|) && Reach(dir.kind, syncs, d0, dir.disk)
    ensures Elsewhere(d0, dir.disk, done + {n}) && Elsewhere(old(dir.disk), dir.disk, {n})
    ensures st == Done || st == Interrupted
    ensures removed ==> n !in dir.disk.entries
    ensures old(dir.Steady()) ==> dir.Steady() && st == Done && (removed <==> SafeTree(Found(d0, n)))
    ensures old(dir.Steady()) && !removed ==> dir.disk == old(dir.disk)
  {
    ghost var before, mark := dir.disk, |dir.history|;
    st, removed := dir.RemoveTree(n);
    RemovalReached(dir.kind, syncs, d0, before, dir.disk, n, done);
    forall k | mark <= k < |dir.history| ensures Reach(dir.kind, syncs, d0, dir.history[k]) {
      RemovalReached(dir.kind, syncs, d0, before, dir.history[k], n, done);
    }
  }

  // First loop: every candidate goes, or is reported.
  method SweepCandidates(dir: Parent, ghost d0: State) returns (report: Report, ghost swept: set<Name>)
    requires dir.Valid() && dir.disk == d0
    modifies dir`clock, dir`disk, dir`history, dir`log
    ensures dir.Valid() && old(dir.history) <= dir.history
    ensures ReachSince(dir.kind, false, d0, dir.history, |old(dir.history)|) && Reach(dir.kind, false, d0, dir.disk)
    ensures swept == Candidates(d0.entries.Keys)
    ensures Elsewhere(d0, dir.disk, swept)
    ensures old(dir.Steady()) ==> dir.Steady() && report.Residual? && SweptSoFar(d0, dir.disk, swept, report.places)
  {
    var todo := set n | n in dir.disk.entries && n.Candidate?;
    swept := {};
    var residuals := {};
    ghost var start, all := |dir.history|, todo;
    ReachStart(dir.kind, false, d0);
    while todo != {}
      invariant dir.Valid() && old(dir.history) <= dir.history
      invariant swept !! todo && swept + todo == all
      invariant ReachSince(dir.kind, false, d0, dir.history, start) && Reach(dir.kind, false, d0, dir.disk)
      invariant Elsewhere(d0, dir.disk, swept)
      invariant old(dir.Steady()) ==> dir.Steady() && SweptSoFar(d0, dir.disk, swept, residuals)
      decreases |todo|
    {
      var c :| c in todo;
      ghost var before, past := dir.disk, dir.history;
      assert Same(d0, before, c);
      var st, removed := DropEntry(dir, c, false, d0, swept);
      SinceJoin(dir.kind, false, d0, past, dir.history, start);
      if st != Done { return Escaped(Raised(Interrupted)), all; }
      if old(dir.Steady()) { SweepStep(d0, before, dir.disk, c, swept, residuals); }
      MoveOver(swept, todo, c);
      todo, swept := todo - {c}, swept + {c};
      if !removed { residuals := residuals + {Entry(c)}; }
    }
    return Residual(residuals), swept;
  }

  // ---- Second loop: the rollbacks, ID by ID ----

  ghost function SlotResiduals(kind: Kind, d0: State, id: string): set<Place> {
    set n | n in d0.entries && Slot(n, id) && Reported(kind, View(d0), n) :: Entry(n)
  }

  ghost predicate SiblingsOf(d0: State, id: string, siblings: set<Name>) {
    siblings == set n | n in d0.entries && n.Rollback? && n.id == id
  }

  // The start and the promises of one turn.
  ghost predicate Turn(kind: Kind, syncs: bool, d0: State, d: State, id: string, siblings: set<Name>, done: set<Name>) {
    && SiblingsOf(d0, id, siblings) && siblings != {}
    && Final(id) !in done && (forall k :: Rollback(id, k) !in done)
    && Reach(kind, syncs, d0, d) && Elsewhere(d0, d, done)
  }

  ghost predicate TurnDone(kind: Kind, syncs: bool, d0: State, a: State, b: State, id: string, siblings: set<Name>,
                           done: set<Name>)
  {
    && Reach(kind, syncs, d0, b) && Elsewhere(d0, b, done + siblings + {Final(id)})
    && Elsewhere(a, b, siblings + {Final(id)})
  }

  // What every turn keeps, in all the states since `from`.
  ghost predicate TurnKept(kind: Kind, syncs: bool, d0: State, a: State, b: State, h: seq<State>, from: nat, id: string,
                           siblings: set<Name>, done: set<Name>)
  {
    && ReachSince(kind, syncs, d0, h, from) && TurnDone(kind, syncs, d0, a, b, id, siblings, done)
    && (Reach(kind, false, d0, a) ==> Unsynced(kind, d0, h, from - 1, View(b)))
  }

  lemma TurnIdle(kind: Kind, syncs: bool, d0: State, a: State, h: seq<State>, id: string, siblings: set<Name>,
                 done: set<Name>)
    requires Turn(kind, syncs, d0, a, id, siblings, done) && EndsAt(h, a)
    ensures TurnKept(kind, syncs, d0, a, a, h, |h|, id, siblings, done)
  {
    if Reach(kind, false, d0, a) { assert Reach(kind, false, d0, h[|h| - 1]); }
  }

  // What a turn in which nothing but a sync of the parent fails does and reports.
  ghost predicate TurnReported(kind: Kind, syncs: bool, d0: State, d: State, id: string, report: Report) {
    && report.Residual? && (syncs ==> report.places == SlotResiduals(kind, d0, id))
    && SlotsTidied(kind, View(d0), View(d), id)
  }

  function Entries(names: set<Name>): set<Place> {
    set n | n in names :: Entry(n)
  }

  lemma StandStill(kind: Kind, syncs: bool, d0: State, d: State, id: string, siblings: set<Name>, done: set<Name>)
    requires Turn(kind, syncs, d0, d, id, siblings, done)
    requires forall k :: !Promotes(kind, View(d0), id, k) && !Superseded(kind, View(d0), id, k)
    ensures SlotsTidied(kind, View(d0), View(d), id)
    ensures SlotResiduals(kind, d0, id) ==
            if Final(id) in d0.entries && !CompleteSet(kind, id, Found(d0, Final(id)))
            then Entries(siblings + {Final(id)}) else Entries(siblings)
  {
    assert Same(d0, d, Final(id));
    forall k ensures Same(d0, d, Rollback(id, k)) {
    }
    UntouchedSlots(kind, d0, id, siblings);
  }

  lemma UntouchedSlots(kind: Kind, d0: State, id: string, siblings: set<Name>)
    requires SiblingsOf(d0, id, siblings) && siblings != {}
    requires forall k :: !Promotes(kind, View(d0), id, k) && !Superseded(kind, View(d0), id, k)
    ensures SlotResiduals(kind, d0, id) ==
            if Final(id) in d0.entries && !CompleteSet(kind, id, Found(d0, Final(id)))
            then Entries(siblings + {Final(id)}) else Entries(siblings)
  {
    var r :| r in siblings;
    assert Rollback(id, r.nonce) in View(d0);
    assert forall n | n in d0.entries && Slot(n, id) :: n in siblings || n == Final(id);
    assert forall n | n in siblings :: n == Rollback(id, n.nonce) && Reported(kind, View(d0), n);
  }

  lemma TurnFlushed(kind: Kind, syncs: bool, d0: State, a: State, b: State, id: string, siblings: set<Name>,
                    done: set<Name>)
    requires syncs && TurnDone(kind, syncs, d0, a, b, id, siblings, done)
    ensures TurnDone(kind, syncs, d0, a, Flush(b), id, siblings, done)
  {
    ReachStep(kind, syncs, d0, b, Flush(b));
  }

  lemma TurnPromoted(kind: Kind, syncs: bool, d0: State, a: State, id: string, k: string, done: set<Name>)
    requires Turn(kind, syncs, d0, a, id, {Rollback(id, k)}, done) && Promotes(kind, View(d0), id, k)
    ensures ValidDisk(Change(a, Move(Rollback(id, k), Final(id))))
    ensures TurnDone(kind, syncs, d0, a, Change(a, Move(Rollback(id, k), Final(id))), id, {Rollback(id, k)}, done)
    ensures SlotsTidied(kind, View(d0), View(Change(a, Move(Rollback(id, k), Final(id)))), id)
    ensures SlotResiduals(kind, d0, id) == {}
  {
    var r, b := Rollback(id, k), Change(a, Move(Rollback(id, k), Final(id)));
    ChangeValid(a, Move(r, Final(id)));
    PromotionReached(kind, syncs, d0, a, b, id, k, done);
    assert done + {r} + {Final(id)} == done + {r, Final(id)};
    assert Same(d0, a, r) && Same(d0, a, Final(id));
    forall j ensures Rollback(id, j) !in b.entries {
      assert Same(d0, a, Rollback(id, j));
    }
  }

  lemma SoleSibling(d0: State, id: string, r: Name)
    requires SiblingsOf(d0, id, {r})
    ensures r == Rollback(id, r.nonce) && r in d0.entries
    ensures forall k :: Rollback(id, k) in d0.entries ==> k == r.nonce
  {
    assert r in {r};
    forall k | Rollback(id, k) in d0.entries ensures k == r.nonce {
      var s := set n | n in d0.entries && n.Rollback? && n.id == id;
      assert Rollback(id, k) in s && s == {r};
    }
  }

  // Nothing stands at the final name and exactly one rollback exists.
  method PromoteSole(dir: Parent, id: string, r: Name, ghost d0: State, ghost done: set<Name>)
    returns (report: Report)
    requires dir.Valid() && Turn(dir.kind, dir.syncs, d0, dir.disk, id, {r}, done) && Final(id) !in d0.entries
    modifies dir`clock, dir`disk, dir`history, dir`log
    ensures dir.Valid() && old(dir.history) <= dir.history
    ensures TurnKept(dir.kind, dir.syncs, d0, old(dir.disk), dir.disk, dir.history, |old(dir.history)|, id, {r}, done)
    ensures old(dir.Steady()) ==> dir.Steady() && TurnReported(dir.kind, dir.syncs, d0, dir.disk, id, report)
    ensures old(dir.Calm()) ==> Firmed(old(dir.disk), dir.disk)
  {
    SoleSibling(d0, id, r);
    TurnIdle(dir.kind, dir.syncs, d0, dir.disk, dir.history, id, {r}, done);
    var refusal := MayPromote(dir, id, r, d0, done);
    if refusal.Some? { return refusal.value; }
    report := Promote(dir, id, r, d0, done);
  }

  // A promotion that failed: the set is where it was, or already at its final name.
  method ReportPromotion(dir: Parent, st: Status, id: string, r: Name) returns (report: Report)
    requires st != Done
    modifies dir`clock
    ensures report.Residual? ==> report.places == {Entry(r)} || report.places == {Entry(Final(id))}
    ensures old(dir.Steady()) ==> dir.Steady() && (st == OsError ==> report.Residual?)
  {
    if st == Interrupted { return Escaped(Raised(Interrupted)); }
    var seen, there := dir.Present(r);
    if seen != Done { return Escaped(Raised(seen)); }
    return Residual({Entry(if there then r else Final(id))});
  }

  // The checks before the promotion; without faults they refuse an incomplete rollback only.
  method MayPromote(dir: Parent, id: string, r: Name, ghost d0: State, ghost done: set<Name>)
    returns (refusal: Option<Report>)
    requires dir.Valid() && Turn(dir.kind, dir.syncs, d0, dir.disk, id, {r}, done) && Final(id) !in d0.entries
    requires r == Rollback(id, r.nonce) && forall k :: Rollback(id, k) in d0.entries ==> k == r.nonce
    modifies dir`clock, dir`log
    ensures dir.Valid()
    ensures refusal.None? ==> r in d0.entries && Promotes(dir.kind, View(d0), id, r.nonce) && Confirmed(dir.log)
    ensures old(dir.Steady()) ==> dir.Steady()
    ensures old(dir.Steady()) && refusal.Some? ==>
              && refusal == Some(Residual(SlotResiduals(dir.kind, d0, id)))
              && SlotsTidied(dir.kind, View(d0), View(dir.disk), id)
  {
    assert Same(d0, dir.disk, r);
    var st, manifest := dir.InspectSet(r, id);
    if st != Done { return Some(Escaped(Raised(Interrupted))); }
    if manifest.None? {
      if old(dir.Steady()) { StandStill(dir.kind, dir.syncs, d0, dir.disk, id, {r}, done); }
      assert Entries({r}) == {Entry(r)};
      return Some(Residual({Entry(r)}));
    }
    var answer: bool;
    st, answer := dir.Live();
    if st != Done { return Some(Escaped(Raised(Interrupted))); }
    return if answer then None else Some(Residual({Entry(r)}));
  }

  method Promote(dir: Parent, id: string, r: Name, ghost d0: State, ghost done: set<Name>) returns (report: Report)
    requires dir.Valid() && r.Rollback? && Turn(dir.kind, dir.syncs, d0, dir.disk, id, {r}, done)
    requires r == Rollback(id, r.nonce) && Promotes(dir.kind, View(d0), id, r.nonce) && Confirmed(dir.log)
    modifies dir`clock, dir`disk, dir`history, dir`log
    ensures dir.Valid() && old(dir.history) <= dir.history
    ensures TurnKept(dir.kind, dir.syncs, d0, old(dir.disk), dir.disk, dir.history, |old(dir.history)|, id, {r}, done)
    ensures old(dir.Steady()) ==> dir.Steady() && TurnReported(dir.kind, dir.syncs, d0, dir.disk, id, report)
    ensures old(dir.Calm()) ==> Firmed(old(dir.disk), dir.disk)
  {
    ghost var a: State := dir.disk;
    ghost var mark := |dir.history|;
    report := MoveToFinal(dir, id, r);
    PromotionOutcome(dir.kind, dir.syncs, d0, a, dir.disk, dir.history, mark, id, r, done);
    if Reach(dir.kind, false, d0, a) {
      ghost var k: nat :| mark - 1 <= k < |dir.history| && View(dir.history[k]) == View(dir.disk)
                          && Renamed(false, a, dir.history[k], r, Final(id));
      PromotionSafe(dir.kind, false, d0, a, dir.history[k], id, r, done);
    }
  }

  lemma PromotionOutcome(kind: Kind, syncs: bool, d0: State, a: State, b: State, h: seq<State>, mark: nat, id: string,
                         r: Name, done: set<Name>)
    requires Turn(kind, syncs, d0, a, id, {r}, done) && Renamed(syncs, a, b, r, Final(id))
    requires r.Rollback? && r == Rollback(id, r.nonce) && Promotes(kind, View(d0), id, r.nonce)
    requires forall k | mark <= k < |h| :: Renamed(syncs, a, h[k], r, Final(id))
    ensures ReachSince(kind, syncs, d0, h, mark) && TurnDone(kind, syncs, d0, a, b, id, {r}, done)
    ensures CanRename(a, r, Final(id)) && SlotResiduals(kind, d0, id) == {}
    ensures b != a ==> SlotsTidied(kind, View(d0), View(b), id)
  {
    MayRename(kind, syncs, d0, a, id, r, done);
    PromotionSafe(kind, syncs, d0, a, b, id, r, done);
    PromotionSafeThroughout(kind, syncs, d0, a, h, mark, id, r, done);
  }

  lemma MayRename(kind: Kind, syncs: bool, d0: State, a: State, id: string, r: Name, done: set<Name>)
    requires Turn(kind, syncs, d0, a, id, {r}, done)
    requires r.Rollback? && r == Rollback(id, r.nonce) && Promotes(kind, View(d0), id, r.nonce)
    ensures CanRename(a, r, Final(id)) && SlotResiduals(kind, d0, id) == {}
  {
    TurnPromoted(kind, syncs, d0, a, id, r.nonce, done);
    assert Same(d0, a, r) && Same(d0, a, Final(id));
  }

  // Before the promotion, after it, and after it is flushed: nothing is lost.
  lemma PromotionSafe(kind: Kind, syncs: bool, d0: State, a: State, b: State, id: string, r: Name, done: set<Name>)
    requires Turn(kind, syncs, d0, a, id, {r}, done) && Renamed(syncs, a, b, r, Final(id))
    requires r.Rollback? && r == Rollback(id, r.nonce) && Promotes(kind, View(d0), id, r.nonce)
    ensures Reach(kind, syncs, d0, b) && TurnDone(kind, syncs, d0, a, b, id, {r}, done)
    ensures b != a ==> SlotsTidied(kind, View(d0), View(b), id)
  {
    TurnPromoted(kind, syncs, d0, a, id, r.nonce, done);
    if syncs { TurnFlushed(kind, syncs, d0, a, Change(a, Move(r, Final(id))), id, {r}, done); }
    assert View(Flush(Change(a, Move(r, Final(id))))) == View(Change(a, Move(r, Final(id))));
  }

  lemma PromotionSafeThroughout(kind: Kind, syncs: bool, d0: State, a: State, h: seq<State>, mark: nat, id: string,
                                r: Name, done: set<Name>)
    requires Turn(kind, syncs, d0, a, id, {r}, done)
    requires r.Rollback? && r == Rollback(id, r.nonce) && Promotes(kind, View(d0), id, r.nonce)
    requires forall k | mark <= k < |h| :: Renamed(syncs, a, h[k], r, Final(id))
    ensures ReachSince(kind, syncs, d0, h, mark)
  {
    forall k | mark <= k < |h| ensures Reach(kind, syncs, d0, h[k]) {
      PromotionSafe(kind, syncs, d0, a, h[k], id, r, done);
    }
  }

  // A run that changed the directory has flushed it since.
  ghost predicate Firmed(a: Disk, b: Disk) {
    b == a || b.survivors == {b.entries}
  }

  ghost predicate Renamed(syncs: bool, a: State, b: Disk, src: Name, dst: Name) {
    b == a || b == Change(a, Move(src, dst)) || (syncs && b == Flush(Change(a, Move(src, dst))))
  }

  method MoveToFinal(dir: Parent, id: string, r: Name) returns (report: Report)
    requires dir.Valid() && Confirmed(dir.log)
    modifies dir`clock, dir`disk, dir`history, dir`log
    ensures dir.Valid() && old(dir.history) <= dir.history && dir.log in {old(dir.log), old(dir.log) + [Moved]}
    ensures forall k | |old(dir.history)| <= k < |dir.history| ::
              Renamed(dir.syncs, old(dir.disk), dir.history[k], r, Final(id))
    ensures Renamed(dir.syncs, old(dir.disk), dir.disk, r, Final(id))
    ensures exists k: nat :: |old(dir.history)| - 1 <= k < |dir.history| && View(dir.history[k]) == View(dir.disk)
                             && Renamed(false, old(dir.disk), dir.history[k], r, Final(id))
    ensures old(dir.Steady()) ==> dir.Steady() && report.Residual?
    ensures old(dir.Steady()) && CanRename(old(dir.disk), r, Final(id)) ==> dir.disk != old(dir.disk)
    ensures old(dir.Steady()) && dir.syncs && CanRename(old(dir.disk), r, Final(id)) ==> report == Residual({})
    ensures old(dir.Calm()) ==> Firmed(old(dir.disk), dir.disk)
  {
    var st := dir.Rename(r, Final(id), false);
    ghost var k := |dir.history| - 1;
    assert Renamed(false, old(dir.disk), dir.history[k], r, Final(id));
    if st == Done { st := dir.FsyncParent(); }
    assert View(dir.history[k]) == View(dir.disk);
    report := Residual({});
    if st != Done { report := ReportPromotion(dir, st, id, r); }
  }

  // Progress through the rollbacks beside a complete final set.
  ghost predicate PrunedSoFar(kind: Kind, d0: State, d: State, pruned: set<Name>, residuals: set<Place>)
  {
    && (forall r | r in pruned :: r in d0.entries && r.Rollback?)
    && (forall r | r in pruned :: r in d.entries <==> !CompleteSet(kind, r.id, Found(d0, r)))
    && (forall r | r in pruned && r in d.entries :: Same(d0, d, r))
    && residuals == set r | r in pruned && !CompleteSet(kind, r.id, Found(d0, r)) :: Entry(r)
  }

  lemma PruneStep(kind: Kind, d0: State, a: State, b: State, r: Name, pruned: set<Name>, residuals: set<Place>)
    requires forall x | x in pruned + {r} :: x in d0.entries && x.Rollback?
    requires r !in pruned && PrunedSoFar(kind, d0, a, pruned, residuals) && Same(d0, a, r)
    requires if CompleteSet(kind, r.id, Found(d0, r)) then r !in b.entries && Elsewhere(a, b, {r}) else b == a
    ensures PrunedSoFar(kind, d0, b, pruned + {r},
              if CompleteSet(kind, r.id, Found(d0, r)) then residuals else residuals + {Entry(r)})
  {
    forall x | x in pruned ensures x in b.entries ==> Same(d0, b, x) {
      if x in b.entries { assert x in a.entries && Same(d0, a, x); }
    }
  }

  lemma BesideFinalDoomed(kind: Kind, d0: State, id: string, r: Name)
    requires r in d0.entries && r.Rollback? && r.id == id && FinalFound(kind, d0, id)
    requires CompleteSet(kind, id, Found(d0, r))
    ensures Doomed(kind, d0, r) && SafeTree(Found(d0, r))
  {
    assert r == Rollback(id, r.nonce);
    CompleteSetIsItsManifest(kind, id, Found(d0, r));
  }

  // One rollback beside a complete final set.
  method PruneOne(dir: Parent, id: string, r: Name, ghost syncs: bool, ghost d0: State, ghost done: set<Name>)
    returns (failure: Option<Failure>, removed: bool)
    requires dir.Valid() && r in dir.disk.entries && Same(d0, dir.disk, r)
    requires r.Rollback? && r.id == id && FinalFound(dir.kind, d0, id)
    requires Reach(dir.kind, syncs, d0, dir.disk) && Elsewhere(d0, dir.disk, done)
    modifies dir`clock, dir`disk, dir`history, dir`log
    ensures dir.Valid() && old(dir.history) <= dir.history
    ensures ReachSince(dir.kind, syncs, d0, dir.history, |old(dir.history)|) && Reach(dir.kind, syncs, d0, dir.disk)
    ensures Elsewhere(d0, dir.disk, done + {r}) && Elsewhere(old(dir.disk), dir.disk, {r})
    ensures removed ==> r !in dir.disk.entries && CompleteSet(dir.kind, id, Found(d0, r))
    ensures old(dir.Steady()) ==> dir.Steady() && failure.None? && removed == CompleteSet(dir.kind, id, Found(d0, r))
    ensures old(dir.Steady()) && !removed ==> dir.disk == old(dir.disk)
  {
    var st, manifest := dir.InspectSet(r, id);
    if st != Done { return Some(Raised(Interrupted)), false; }
    if manifest.None? { return None, false; }
    BesideFinalDoomed(dir.kind, d0, id, r);
    st, removed := DropEntry(dir, r, syncs, d0, done);
    if st != Done { return Some(Raised(Interrupted)), false; }
    return None, removed;
  }

  // What pruning keeps, in all the states since `from`.
  ghost predicate PruneKept(kind: Kind, syncs: bool, d0: State, a: State, b: State, h: seq<State>, from: nat,
                            pruned: set<Name>, done: set<Name>)
  {
    && ReachSince(kind, syncs, d0, h, from) && Reach(kind, syncs, d0, b)
    && Elsewhere(d0, b, done + pruned) && Elsewhere(a, b, pruned)
    && forall r | r in pruned :: r in d0.entries && r.Rollback?
  }

  lemma PruneStarts(kind: Kind, syncs: bool, d0: State, a: State, h: seq<State>, done: set<Name>)
    requires Reach(kind, syncs, d0, a) && Elsewhere(d0, a, done)
    ensures PruneKept(kind, syncs, d0, a, a, h, |h|, {}, done)
    ensures PrunedSoFar(kind, d0, a, {}, {})
  {
    assert done + {} == done;
  }

  lemma PruneEnds(kind: Kind, synced: bool, syncs: bool, d0: State, a: State, b: State, h: seq<State>, from: nat,
                  pruned: set<Name>, siblings: set<Name>, done: set<Name>)
    requires PruneKept(kind, synced, d0, a, b, h, from, pruned, done) && pruned <= siblings && (synced ==> syncs)
    requires forall r | r in siblings :: r in d0.entries && r.Rollback?
    requires EndsAt(h, b) && from <= |h|
    ensures PruneKept(kind, syncs, d0, a, b, h, from, siblings, done)
    ensures !synced ==> Unsynced(kind, d0, h, from - 1, View(b))
  {
    ElsewhereWider(d0, b, done + pruned, done + siblings);
    ElsewhereWider(a, b, pruned, siblings);
    if !synced { NoSyncYet(kind, syncs, d0, b, h, from); }
  }

  // One turn of the loop below, with its bookkeeping.
  method PruneTurn(dir: Parent, id: string, r: Name, ghost syncs: bool, ghost d0: State, ghost done: set<Name>,
                   ghost first: State, ghost pruned: set<Name>, ghost start: nat, ghost residuals: set<Place>,
                   ghost steady: bool)
    returns (failure: Option<Failure>, removed: bool)
    requires dir.Valid() && start <= |dir.history| && FinalFound(dir.kind, d0, id)
    requires PruneKept(dir.kind, syncs, d0, first, dir.disk, dir.history, start, pruned, done)
    requires r in d0.entries && r.Rollback? && r.id == id && r !in done + pruned
    requires steady ==> dir.Steady() && PrunedSoFar(dir.kind, d0, dir.disk, pruned, residuals)
    modifies dir`clock, dir`disk, dir`history, dir`log
    ensures dir.Valid() && old(dir.history) <= dir.history
    ensures PruneKept(dir.kind, syncs, d0, first, dir.disk, dir.history, start, pruned + {r}, done)
    ensures steady ==> dir.Steady() && failure.None?
    ensures steady ==>
              PrunedSoFar(dir.kind, d0, dir.disk, pruned + {r}, if removed then residuals else residuals + {Entry(r)})
    ensures steady && !removed ==> dir.disk == old(dir.disk)
  {
    ghost var before, past := dir.disk, dir.history;
    assert Same(d0, before, r);
    failure, removed := PruneOne(dir, id, r, syncs, d0, done + pruned);
    SinceJoin(dir.kind, syncs, d0, past, dir.history, start);
    assert done + pruned + {r} == done + (pruned + {r});
    ElsewhereJoin(first, before, dir.disk, pruned, {r});
    if steady { PruneStep(dir.kind, d0, before, dir.disk, r, pruned, residuals); }
  }

  // `synced` tells whether the pass has synced the parent before; nothing here does.
  method PruneAll(dir: Parent, id: string, siblings: set<Name>, ghost synced: bool, ghost d0: State,
                  ghost done: set<Name>)
    returns (failure: Option<Failure>, residuals: set<Place>, removedAny: bool)
    requires dir.Valid() && Turn(dir.kind, synced, d0, dir.disk, id, siblings, done) && FinalFound(dir.kind, d0, id)
    requires synced ==> dir.syncs
    modifies dir`clock, dir`disk, dir`history, dir`log
    ensures dir.Valid() && old(dir.history) <= dir.history && WholeParent !in residuals
    ensures PruneKept(dir.kind, dir.syncs, d0, old(dir.disk), dir.disk, dir.history, |old(dir.history)|, siblings, done)
    ensures !synced ==> Unsynced(dir.kind, d0, dir.history, |old(dir.history)| - 1, View(dir.disk))
    ensures old(dir.Steady()) ==> dir.Steady() && failure.None?
    ensures old(dir.Steady()) ==> PrunedSoFar(dir.kind, d0, dir.disk, siblings, residuals)
    ensures old(dir.Steady()) && !removedAny ==> dir.disk == old(dir.disk)
  {
    var todo := siblings;
    failure, residuals, removedAny := None, {}, false;
    ghost var start, pruned, first := |dir.history|, {}, dir.disk;
    AllSiblings(d0, id, siblings, done);
    PruneStarts(dir.kind, synced, d0, first, dir.history, done);
    while todo != {} && failure.None?
      invariant dir.Valid() && old(dir.history) <= dir.history
      invariant pruned !! todo && pruned + todo == siblings && WholeParent !in residuals
      invariant PruneKept(dir.kind, synced, d0, first, dir.disk, dir.history, start, pruned, done)
      invariant old(dir.Steady()) ==> dir.Steady() && failure.None?
      invariant old(dir.Steady()) ==> PrunedSoFar(dir.kind, d0, dir.disk, pruned, residuals)
      invariant old(dir.Steady()) && !removedAny ==> dir.disk == first
      decreases |todo|
    {
      var r :| r in todo;
      var removed: bool;
      failure, removed := PruneTurn(dir, id, r, synced, d0, done, first, pruned, start, residuals, old(dir.Steady()));
      MoveOver(pruned, todo, r);
      todo, pruned := todo - {r}, pruned + {r};
      if removed { removedAny := true; } else { residuals := residuals + {Entry(r)}; }
    }
    PruneEnds(dir.kind, synced, dir.syncs, d0, first, dir.disk, dir.history, start, pruned, siblings, done);
    if failure.None? { assert pruned == siblings; }
  }

  lemma AllSiblings(d0: State, id: string, siblings: set<Name>, done: set<Name>)
    requires SiblingsOf(d0, id, siblings) && forall k :: Rollback(id, k) !in done
    ensures forall r | r in siblings :: r in d0.entries && r.Rollback? && r.id == id && r !in done
  {
    forall r | r in siblings ensures r !in done {
      assert r == Rollback(id, r.nonce);
    }
  }

  lemma ElsewhereWider(a: State, b: State, pruned: set<Name>, siblings: set<Name>)
    requires Elsewhere(a, b, pruned) && pruned <= siblings
    ensures Elsewhere(a, b, siblings)
  {
  }

  lemma PruningFlushed(kind: Kind, syncs: bool, d0: State, first: State, d: State, done: set<Name>, pruned: set<Name>)
    requires Elsewhere(d0, d, done) && Reach(kind, syncs, d0, d) && Elsewhere(first, d, pruned)
    ensures syncs ==> Reach(kind, syncs, d0, Flush(d))
    ensures Elsewhere(d0, Flush(d), done) && Elsewhere(first, Flush(d), pruned)
    ensures forall residuals | PrunedSoFar(kind, d0, d, pruned, residuals) ::
              PrunedSoFar(kind, d0, Flush(d), pruned, residuals)
  {
    if syncs { ReachStep(kind, syncs, d0, d, Flush(d)); }
    forall n | n !in done ensures Same(d0, Flush(d), n) {
      assert Same(d0, d, n);
    }
  }

  // What pruning in which nothing but its sync fails does and reports.
  ghost predicate PruneReported(kind: Kind, syncs: bool, d0: State, d: State, siblings: set<Name>, report: Report) {
    && report.Residual? && (syncs ==> WholeParent !in report.places)
    && PrunedSoFar(kind, d0, d, siblings, report.places - {WholeParent})
  }

  // Every rollback beside a complete final set, and the sync after it.
  method PruneSiblings(dir: Parent, id: string, siblings: set<Name>, ghost d0: State, ghost done: set<Name>)
    returns (report: Report)
    requires dir.Valid() && Turn(dir.kind, dir.syncs, d0, dir.disk, id, siblings, done) && FinalFound(dir.kind, d0, id)
    modifies dir`clock, dir`disk, dir`history, dir`log
    ensures dir.Valid() && old(dir.history) <= dir.history
    ensures PruneKept(dir.kind, dir.syncs, d0, old(dir.disk), dir.disk, dir.history, |old(dir.history)|, siblings, done)
    ensures Reach(dir.kind, false, d0, old(dir.disk)) ==>
              Unsynced(dir.kind, d0, dir.history, |old(dir.history)| - 1, View(dir.disk))
    ensures old(dir.Steady()) ==> dir.Steady() && PruneReported(dir.kind, dir.syncs, d0, dir.disk, siblings, report)
    ensures old(dir.Calm()) ==> Firmed(old(dir.disk), dir.disk)
  {
    ghost var a: State, synced := dir.disk, dir.syncs && !Reach(dir.kind, false, d0, dir.disk);
    // If the pass has made no sync before, none is made up to this one.
    var failure, residuals, removedAny := PruneAll(dir, id, siblings, synced, d0, done);
    if failure.Some? {
      report := Escaped(failure.value);
    } else if !removedAny {
      report := Residual(residuals);
    } else {
      report := SyncPruned(dir, siblings, residuals, d0, a, done, |old(dir.history)|);
    }
  }

  lemma NoSyncYet(kind: Kind, syncs: bool, d0: State, d: State, h: seq<State>, from: nat)
    requires EndsAt(h, d) && from <= |h|
    requires Reach(kind, false, d0, d) && ReachSince(kind, false, d0, h, from)
    ensures Reach(kind, syncs, d0, d) && ReachSince(kind, syncs, d0, h, from)
    ensures Unsynced(kind, d0, h, from - 1, View(d))
  {
    ReachMore(kind, syncs, d0, d);
    SinceMore(kind, syncs, d0, h, from);
    assert Reach(kind, false, d0, h[|h| - 1]);
  }

  // The sync that ends the pruning.
  method SyncPruned(dir: Parent, siblings: set<Name>, residuals: set<Place>, ghost d0: State, ghost first: State,
                    ghost done: set<Name>, ghost start: nat)
    returns (report: Report)
    requires dir.Valid() && start <= |dir.history| && WholeParent !in residuals
    requires PruneKept(dir.kind, dir.syncs, d0, first, dir.disk, dir.history, start, siblings, done)
    modifies dir`clock, dir`disk, dir`history
    ensures dir.Valid() && old(dir.history) <= dir.history && View(dir.disk) == View(old(dir.disk))
    ensures PruneKept(dir.kind, dir.syncs, d0, first, dir.disk, dir.history, start, siblings, done)
    ensures old(dir.Steady()) ==> dir.Steady()
    ensures old(dir.Steady()) && PrunedSoFar(dir.kind, d0, old(dir.disk), siblings, residuals) ==>
              PruneReported(dir.kind, dir.syncs, d0, dir.disk, siblings, report)
    ensures report.Residual? ==> dir.disk.survivors == {dir.disk.entries} || WholeParent in report.places
  {
    ghost var past := dir.history;
    PruningFlushed(dir.kind, dir.syncs, d0, first, dir.disk, done + siblings, siblings);
    var st := dir.FsyncParent();
    SinceJoin(dir.kind, dir.syncs, d0, past, dir.history, start);
    report := match st case Interrupted => Escaped(Raised(Interrupted))
                       case OsError => Residual(residuals + {WholeParent})
                       case Done => Residual(residuals);
    assert residuals + {WholeParent} - {WholeParent} == residuals == residuals - {WholeParent};
  }

  lemma ElsewhereJoin(a: State, b: State, c: State, x: set<Name>, y: set<Name>)
    requires Elsewhere(a, b, x) && Elsewhere(b, c, y)
    ensures Elsewhere(a, c, x + y)
  {
    forall n | n !in x + y ensures Same(a, c, n) {
      assert Same(a, b, n) && Same(b, c, n);
    }
  }

  lemma PrunedIsTidied(kind: Kind, d0: State, d: State, id: string, siblings: set<Name>, done: set<Name>,
                       residuals: set<Place>)
    requires SiblingsOf(d0, id, siblings) && forall r | r in siblings :: r in d0.entries && r.Rollback?
    requires Final(id) in d0.entries && CompleteSet(kind, id, Found(d0, Final(id)))
    requires PrunedSoFar(kind, d0, d, siblings, residuals) && Elsewhere(d0, d, done)
    requires Final(id) !in done && forall k :: Rollback(id, k) in done ==> Rollback(id, k) in siblings
    ensures SlotsTidied(kind, View(d0), View(d), id) && residuals == SlotResiduals(kind, d0, id)
  {
    assert Same(d0, d, Final(id));
    forall k
      ensures Rollback(id, k) in d.entries
              <==> Rollback(id, k) in d0.entries && !CompleteSet(kind, id, Found(d0, Rollback(id, k)))
      ensures Rollback(id, k) in d.entries ==> Same(d0, d, Rollback(id, k))
    {
      if Rollback(id, k) !in d0.entries {
        assert Rollback(id, k) !in siblings;
        assert Same(d0, d, Rollback(id, k));
      } else {
        assert Rollback(id, k) in siblings;
      }
    }
    forall n ensures n in d0.entries && Slot(n, id) && Reported(kind, View(d0), n)
                     <==> n in siblings && !CompleteSet(kind, n.id, Found(d0, n)) {
      if n.Rollback? && n.id == id { assert n == Rollback(id, n.nonce); }
    }
  }

  // One ID: promote, prune, or report.
  method ReconcileEntity(dir: Parent, id: string, siblings: set<Name>, ghost d0: State, ghost done: set<Name>)
    returns (report: Report)
    requires dir.Valid() && Turn(dir.kind, dir.syncs, d0, dir.disk, id, siblings, done)
    modifies dir`clock, dir`disk, dir`history, dir`log
    ensures dir.Valid() && old(dir.history) <= dir.history
    ensures TurnKept(dir.kind, dir.syncs, d0, old(dir.disk), dir.disk, dir.history, |old(dir.history)|, id, siblings,
                     done)
    ensures old(dir.Steady()) ==> dir.Steady() && TurnReported(dir.kind, dir.syncs, d0, dir.disk, id, report)
    ensures old(dir.Calm()) ==> Firmed(old(dir.disk), dir.disk)
  {
    TurnIdle(dir.kind, dir.syncs, d0, dir.disk, dir.history, id, siblings, done);
    assert Same(d0, dir.disk, Final(id));
    var st, present := dir.Present(Final(id));
    if st != Done {
      report := Escaped(Raised(st));
    } else if present {
      report := BesideFinal(dir, id, siblings, d0, done);
    } else {
      report := WithoutFinal(dir, id, siblings, d0, done);
    }
  }

  // Nothing stands at the final name.
  method WithoutFinal(dir: Parent, id: string, siblings: set<Name>, ghost d0: State, ghost done: set<Name>)
    returns (report: Report)
    requires dir.Valid() && Turn(dir.kind, dir.syncs, d0, dir.disk, id, siblings, done) && Final(id) !in d0.entries
    modifies dir`clock, dir`disk, dir`history, dir`log
    ensures dir.Valid() && old(dir.history) <= dir.history
    ensures TurnKept(dir.kind, dir.syncs, d0, old(dir.disk), dir.disk, dir.history, |old(dir.history)|, id, siblings,
                     done)
    ensures old(dir.Steady()) ==> dir.Steady() && TurnReported(dir.kind, dir.syncs, d0, dir.disk, id, report)
    ensures old(dir.Calm()) ==> Firmed(old(dir.disk), dir.disk)
  {
    TurnIdle(dir.kind, dir.syncs, d0, dir.disk, dir.history, id, siblings, done);
    if |siblings| == 1 {
      var r :| r in siblings;
      OnlyOne(siblings, r);
      report := PromoteSole(dir, id, r, d0, done);
    } else {
      if old(dir.Steady()) {
        NoSole(dir.kind, d0, id, siblings);
        StandStill(dir.kind, dir.syncs, d0, dir.disk, id, siblings, done);
      }
      report := Residual(Entries(siblings));
    }
  }

  lemma OnlyOne(siblings: set<Name>, r: Name)
    requires |siblings| == 1 && r in siblings
    ensures siblings == {r}
  {
    assert |siblings - {r}| == 0;
    assert siblings == {r} + (siblings - {r});
  }

  lemma SoleIfPromoted(kind: Kind, d0: State, id: string, siblings: set<Name>, k: string)
    requires SiblingsOf(d0, id, siblings) && Promotes(kind, View(d0), id, k)
    ensures |siblings| == 1
  {
    forall n | n in siblings ensures n == Rollback(id, k) {
      assert n == Rollback(id, n.nonce);
    }
    assert siblings == {Rollback(id, k)};
  }

  lemma NoSole(kind: Kind, d0: State, id: string, siblings: set<Name>)
    requires SiblingsOf(d0, id, siblings) && |siblings| != 1
    ensures forall k :: !Promotes(kind, View(d0), id, k)
  {
    forall k ensures !Promotes(kind, View(d0), id, k) {
      if Promotes(kind, View(d0), id, k) { SoleIfPromoted(kind, d0, id, siblings, k); }
    }
  }

  method BesideFinal(dir: Parent, id: string, siblings: set<Name>, ghost d0: State, ghost done: set<Name>)
    returns (report: Report)
    requires dir.Valid() && Turn(dir.kind, dir.syncs, d0, dir.disk, id, siblings, done) && Final(id) in d0.entries
    modifies dir`clock, dir`disk, dir`history, dir`log
    ensures dir.Valid() && old(dir.history) <= dir.history
    ensures TurnKept(dir.kind, dir.syncs, d0, old(dir.disk), dir.disk, dir.history, |old(dir.history)|, id, siblings,
                     done)
    ensures old(dir.Steady()) ==> dir.Steady() && TurnReported(dir.kind, dir.syncs, d0, dir.disk, id, report)
    ensures old(dir.Calm()) ==> Firmed(old(dir.disk), dir.disk)
  {
    TurnIdle(dir.kind, dir.syncs, d0, dir.disk, dir.history, id, siblings, done);
    assert Same(d0, dir.disk, Final(id));
    var st, manifest := dir.InspectSet(Final(id), id);
    if st != Done {
      report := Escaped(Raised(Interrupted));
    } else if manifest.None? {
      if old(dir.Steady()) { StandStill(dir.kind, dir.syncs, d0, dir.disk, id, siblings, done); }
      report := Residual(Entries(siblings + {Final(id)}));
    } else {
      ghost var a: State := dir.disk;
      report := PruneSiblings(dir, id, siblings, d0, done);
      PrunedTurn(dir.kind, dir.syncs, d0, a, dir.disk, dir.history, |old(dir.history)|, id, siblings, done);
      if old(dir.Steady()) { PrunedReport(dir.kind, dir.syncs, d0, dir.disk, id, siblings, done, report); }
    }
  }

  lemma PrunedTurn(kind: Kind, syncs: bool, d0: State, a: State, b: State, h: seq<State>, from: nat, id: string,
                   siblings: set<Name>, done: set<Name>)
    requires PruneKept(kind, syncs, d0, a, b, h, from, siblings, done)
    requires Reach(kind, false, d0, a) ==> Unsynced(kind, d0, h, from - 1, View(b))
    ensures TurnKept(kind, syncs, d0, a, b, h, from, id, siblings, done)
  {
    ElsewhereWider(d0, b, done + siblings, done + siblings + {Final(id)});
    ElsewhereWider(a, b, siblings, siblings + {Final(id)});
  }

  lemma PrunedReport(kind: Kind, syncs: bool, d0: State, d: State, id: string, siblings: set<Name>, done: set<Name>,
                     report: Report)
    requires SiblingsOf(d0, id, siblings) && FinalFound(kind, d0, id)
    requires Final(id) !in done && forall k :: Rollback(id, k) !in done
    requires Elsewhere(d0, d, done + siblings) && PruneReported(kind, syncs, d0, d, siblings, report)
    ensures TurnReported(kind, syncs, d0, d, id, report)
  {
    PrunedIsTidied(kind, d0, d, id, siblings, done + siblings, report.places - {WholeParent});
    assert WholeParent !in report.places ==> report.places - {WholeParent} == report.places;
  }

  // ---- The whole pass over one parent ----

  ghost predicate Awaiting(n: Name, todo: set<string>) {
    (n.Rollback? || n.Final?) && n.id in todo
  }

  ghost function ResidualsSoFar(kind: Kind, d0: State, todo: set<string>): set<Place> {
    set n | n in d0.entries && Reported(kind, View(d0), n) && !Awaiting(n, todo) :: Entry(n)
  }

  ghost predicate Passing(kind: Kind, syncs: bool, d0: State, d: State, todo: set<string>, done: set<Name>) {
    && Reach(kind, syncs, d0, d) && Elsewhere(d0, d, done)
    && forall n | n in done :: !Awaiting(n, todo) && !n.Other?
  }

  ghost predicate PassedSoFar(kind: Kind, syncs: bool, d0: State, d: State, todo: set<string>, swept: set<Name>,
                              residuals: set<Place>)
    requires swept <= d0.entries.Keys
  {
    && (forall id | id !in todo :: SlotsTidied(kind, View(d0), View(d), id))
    && (forall c | c in swept :: c in d.entries <==> !SafeTree(Found(d0, c)))
    && (forall c | c in swept && c in d.entries :: Same(d0, d, c))
    && (syncs ==> residuals == ResidualsSoFar(kind, d0, todo))
  }

  lemma ResidualsStart(kind: Kind, d0: State, todo: set<string>, swept: set<Name>)
    requires todo == RollbackIds(d0)
    requires swept == Candidates(d0.entries.Keys)
    ensures ResidualsSoFar(kind, d0, todo) == set c | c in swept && !SafeTree(Found(d0, c)) :: Entry(c)
  {
    forall n ensures n in d0.entries && Reported(kind, View(d0), n) && !Awaiting(n, todo)
                     <==> n in swept && !SafeTree(Found(d0, n)) {
      if n in d0.entries && n.Final? && Reported(kind, View(d0), n) {
        var k :| Rollback(n.id, k) in d0.entries;
        assert Rollback(n.id, k).id in todo;
      }
    }
  }

  lemma ResidualsStep(kind: Kind, d0: State, todo: set<string>, id: string)
    requires id in todo
    ensures ResidualsSoFar(kind, d0, todo - {id}) == ResidualsSoFar(kind, d0, todo) + SlotResiduals(kind, d0, id)
  {
    assert forall n :: n in d0.entries && Reported(kind, View(d0), n) && !Awaiting(n, todo - {id}) <==>
                         (n in d0.entries && Reported(kind, View(d0), n) && !Awaiting(n, todo))
                         || (n in d0.entries && Slot(n, id) && Reported(kind, View(d0), n));
  }

  lemma NothingToTidy(kind: Kind, v: Tree, w: Tree, id: string)
    requires forall k :: Rollback(id, k) !in v && Rollback(id, k) !in w
    requires (Final(id) in v <==> Final(id) in w) && (Final(id) in v ==> w[Final(id)] == v[Final(id)])
    ensures SlotsTidied(kind, v, w, id)
  {
  }

  lemma NoRollbacksNoWork(kind: Kind, d0: State, d: State, id: string, done: set<Name>)
    requires Elsewhere(d0, d, done) && Final(id) !in done && forall k :: Rollback(id, k) !in done
    requires forall k :: Rollback(id, k) !in d0.entries
    ensures SlotsTidied(kind, View(d0), View(d), id)
  {
    assert Same(d0, d, Final(id));
    forall k ensures Rollback(id, k) !in d.entries {
      assert Same(d0, d, Rollback(id, k));
    }
    NothingToTidy(kind, View(d0), View(d), id);
  }

  lemma PassStarts(kind: Kind, syncs: bool, d0: State, d: State, todo: set<string>, swept: set<Name>,
                   residuals: set<Place>)
    requires todo == RollbackIds(d0) && swept == Candidates(d0.entries.Keys)
    requires Elsewhere(d0, d, swept) && SweptSoFar(d0, d, swept, residuals)
    ensures PassedSoFar(kind, syncs, d0, d, todo, swept, residuals)
  {
    ResidualsStart(kind, d0, todo, swept);
    forall id | id !in todo ensures SlotsTidied(kind, View(d0), View(d), id) {
      forall n | n in d0.entries && n.Rollback? ensures n.id != id {
        assert n.id in todo;
      }
      NoRollbacksNoWork(kind, d0, d, id, swept);
    }
  }

  lemma SweptCarry(d0: State, a: State, b: State, c: Name, names: set<Name>)
    requires c !in names && Elsewhere(a, b, names) && (c in a.entries ==> Same(d0, a, c))
    ensures c in b.entries <==> c in a.entries
    ensures c in b.entries ==> Same(d0, b, c)
  {
  }

  lemma PassedStep(kind: Kind, syncs: bool, d0: State, a: State, b: State, id: string, todo: set<string>,
                   swept: set<Name>, siblings: set<Name>, residuals: set<Place>, more: set<Place>)
    requires swept == Candidates(d0.entries.Keys)
    requires PassedSoFar(kind, syncs, d0, a, todo, swept, residuals) && id in todo && SiblingsOf(d0, id, siblings)
    requires Elsewhere(a, b, siblings + {Final(id)}) && SlotsTidied(kind, View(d0), View(b), id)
    requires syncs ==> more == SlotResiduals(kind, d0, id)
    ensures PassedSoFar(kind, syncs, d0, b, todo - {id}, swept, residuals + more)
  {
    var names := siblings + {Final(id)};
    TurnNames(d0, id, siblings, swept);
    ViewAlike(a, b, names);
    ResidualsStep(kind, d0, todo, id);
    SlotsStep(kind, View(d0), View(a), View(b), id, todo, names);
    SweptStep(d0, a, b, swept, names);
  }

  lemma TurnNames(d0: State, id: string, siblings: set<Name>, swept: set<Name>)
    requires SiblingsOf(d0, id, siblings) && swept == Candidates(d0.entries.Keys)
    ensures (forall n | n in siblings + {Final(id)} :: Slot(n, id)) && swept !! siblings + {Final(id)}
  {
  }

  lemma ViewAlike(a: State, b: State, names: set<Name>)
    requires Elsewhere(a, b, names)
    ensures AlikeOutside(View(a), View(b), names)
  {
  }

  ghost predicate AlikeOutside(wa: Tree, wb: Tree, names: set<Name>) {
    forall n | n !in names :: (n in wa <==> n in wb) && (n in wa ==> wa[n] == wb[n])
  }

  lemma SlotsStep(kind: Kind, v: Tree, wa: Tree, wb: Tree, id: string, todo: set<string>, names: set<Name>)
    requires forall x | x !in todo :: SlotsTidied(kind, v, wa, x)
    requires forall n | n in names :: Slot(n, id)
    requires AlikeOutside(wa, wb, names) && SlotsTidied(kind, v, wb, id)
    ensures forall x | x !in todo - {id} :: SlotsTidied(kind, v, wb, x)
  {
    forall x | x !in todo - {id} ensures SlotsTidied(kind, v, wb, x) {
      if x != id { SlotsCarry(kind, v, wa, wb, x, names); }
    }
  }

  lemma SweptStep(d0: State, a: State, b: State, swept: set<Name>, names: set<Name>)
    requires swept !! names && Elsewhere(a, b, names)
    requires forall c | c in swept && c in a.entries :: Same(d0, a, c)
    ensures forall c | c in swept :: c in b.entries <==> c in a.entries
    ensures forall c | c in swept && c in b.entries :: Same(d0, b, c)
  {
    forall c | c in swept
      ensures c in b.entries <==> c in a.entries
      ensures c in b.entries ==> Same(d0, b, c)
    {
      SweptCarry(d0, a, b, c, names);
    }
  }

  lemma SlotsCarry(kind: Kind, v: Tree, wa: Tree, wb: Tree, id: string, names: set<Name>)
    requires SlotsTidied(kind, v, wa, id) && AlikeOutside(wa, wb, names)
    requires forall n | n in names :: !Slot(n, id)
    ensures SlotsTidied(kind, v, wb, id)
  {
    forall k
      ensures Rollback(id, k) in wb <==> Rollback(id, k) in wa
      ensures Rollback(id, k) in wb ==> wb[Rollback(id, k)] == wa[Rollback(id, k)]
    {
      assert !(Rollback(id, k) in names);
    }
    assert Final(id) !in names;
  }

  lemma CandidatesEnd(d0: State, d: State, swept: set<Name>, done: set<Name>)
    requires swept == Candidates(d0.entries.Keys)
    requires Elsewhere(d0, d, done) && forall n | n in done && n.Candidate? :: n in swept
    requires forall c | c in swept :: c in d.entries <==> !SafeTree(Found(d0, c))
    requires forall c | c in swept && c in d.entries :: Same(d0, d, c)
    ensures forall id, k ::
      Candidate(id, k) in View(d) <==> Candidate(id, k) in View(d0) && !SafeTree(View(d0)[Candidate(id, k)])
    ensures forall id, k :: Candidate(id, k) in View(d) ==> View(d)[Candidate(id, k)] == View(d0)[Candidate(id, k)]
  {
    forall id, k
      ensures Candidate(id, k) in d.entries
              <==> Candidate(id, k) in d0.entries && !SafeTree(Found(d0, Candidate(id, k)))
      ensures Candidate(id, k) in d.entries ==> Same(d0, d, Candidate(id, k))
    {
      var c := Candidate(id, k);
      if c !in swept { assert Same(d0, d, c); }
    }
  }

  lemma OthersEnd(d0: State, d: State, done: set<Name>)
    requires Elsewhere(d0, d, done) && forall n | n in done :: !n.Other?
    ensures forall t :: Other(t) in View(d) <==> Other(t) in View(d0)
    ensures forall t :: Other(t) in View(d) ==> View(d)[Other(t)] == View(d0)[Other(t)]
  {
    forall t ensures Same(d0, d, Other(t)) {}
  }

  lemma PassEnds(kind: Kind, syncs: bool, d0: State, d: State, swept: set<Name>, done: set<Name>, residuals: set<Place>)
    requires swept == Candidates(d0.entries.Keys)
    requires Passing(kind, syncs, d0, d, {}, done) && PassedSoFar(kind, syncs, d0, d, {}, swept, residuals)
    requires Candidates(done) <= swept
    ensures Tidied(kind, View(d0), View(d)) && (syncs ==> residuals == Residuals(kind, View(d0)))
  {
    forall n | n in done && n.Candidate? ensures n in swept { assert n in Candidates(done); }
    CandidatesEnd(d0, d, swept, done);
    OthersEnd(d0, d, done);
    assert forall n :: n in View(d0) <==> n in d0.entries;
  }

  ghost function RollbackIds(d0: State): set<string> {
    set n | n in d0.entries && n.Rollback? :: n.id
  }

  ghost function Candidates(names: set<Name>): set<Name> {
    set n | n in names && n.Candidate?
  }

  lemma MoreDone(d0: State, done: set<Name>, siblings: set<Name>, id: string, swept: set<Name>)
    requires SiblingsOf(d0, id, siblings) && Candidates(done) <= swept
    ensures Candidates(done + siblings + {Final(id)}) <= swept
  {
  }

  lemma SomeSibling(d0: State, id: string, siblings: set<Name>)
    requires siblings == set n | n in d0.entries && n.Rollback? && n.id == id
    requires id in RollbackIds(d0)
    ensures siblings != {} && SiblingsOf(d0, id, siblings)
  {
    var n :| n in d0.entries && n.Rollback? && n.id == id;
    assert n in siblings;
  }

  // What the second loop keeps, in all the states since `from`. While no turn
  // has been taken, no sync has been made.
  ghost predicate PassKept(kind: Kind, syncs: bool, d0: State, d: State, h: seq<State>, from: nat, todo: set<string>,
                           done: set<Name>, swept: set<Name>)
  {
    && ReachSince(kind, syncs, d0, h, from) && Passing(kind, syncs, d0, d, todo, done)
    && todo <= RollbackIds(d0) && Candidates(done) <= swept
    && (todo == RollbackIds(d0) ==> Reach(kind, false, d0, d))
    && (Single(d0) ==> Unsynced(kind, d0, h, from - 1, View(d)))
  }

  lemma LoopStarts(kind: Kind, syncs: bool, d0: State, d: State, h: seq<State>, todo: set<string>, swept: set<Name>)
    requires EndsAt(h, d) && Reach(kind, false, d0, d) && Elsewhere(d0, d, swept)
    requires todo == RollbackIds(d0) && swept == Candidates(d0.entries.Keys)
    ensures PassKept(kind, syncs, d0, d, h, |h|, todo, swept, swept)
  {
    NoSyncYet(kind, syncs, d0, d, h, |h|);
  }

  lemma TurnTaken(kind: Kind, syncs: bool, d0: State, a: State, b: State, past: seq<State>, h: seq<State>, from: nat,
                  id: string, siblings: set<Name>, todo: set<string>, done: set<Name>, swept: set<Name>)
    requires PassKept(kind, syncs, d0, a, past, from, todo, done, swept) && id in todo && SiblingsOf(d0, id, siblings)
    requires 0 < |past| && from <= |past| && past <= h
    requires TurnKept(kind, syncs, d0, a, b, h, |past|, id, siblings, done)
    ensures PassKept(kind, syncs, d0, b, h, from, todo - {id}, done + siblings + {Final(id)}, swept)
  {
    SinceJoin(kind, syncs, d0, past, h, from);
    MoreDone(d0, done, siblings, id, swept);
    NothingAwaited(d0, todo, id, siblings, done);
    if Single(d0) {
      OnlyId(d0, todo, id);
      EarlierUnsynced(kind, d0, h, from - 1, |past| - 1, View(b));
    }
  }

  lemma NothingAwaited(d0: State, todo: set<string>, id: string, siblings: set<Name>, done: set<Name>)
    requires SiblingsOf(d0, id, siblings) && id in todo && todo <= RollbackIds(d0)
    requires forall n | n in done :: !Awaiting(n, todo) && !n.Other?
    ensures forall n | n in done + siblings + {Final(id)} :: !Awaiting(n, todo - {id}) && !n.Other?
    ensures todo - {id} != RollbackIds(d0) && todo - {id} <= RollbackIds(d0)
  {
    assert id in RollbackIds(d0) && id !in todo - {id};
  }

  lemma EarlierUnsynced(kind: Kind, d0: State, h: seq<State>, from: int, later: int, v: Tree)
    requires from <= later && Unsynced(kind, d0, h, later, v)
    ensures Unsynced(kind, d0, h, from, v)
  {
  }

  // One turn of the second loop with its bookkeeping; `seen` is what is done after it.
  method EntityTurn(dir: Parent, id: string, names: set<Name>, ghost d0: State, ghost todo: set<string>,
                    ghost done: set<Name>, ghost swept: set<Name>, ghost start: nat, ghost residuals: set<Place>,
                    ghost steady: bool)
    returns (report: Report, ghost seen: set<Name>)
    requires dir.Valid() && start <= |dir.history| && id in todo
    requires PassKept(dir.kind, dir.syncs, d0, dir.disk, dir.history, start, todo, done, swept)
    requires names == d0.entries.Keys && swept == Candidates(d0.entries.Keys)
    requires steady ==> dir.Steady() && PassedSoFar(dir.kind, dir.syncs, d0, dir.disk, todo, swept, residuals)
    modifies dir`clock, dir`disk, dir`history, dir`log
    ensures dir.Valid() && old(dir.history) <= dir.history
    ensures PassKept(dir.kind, dir.syncs, d0, dir.disk, dir.history, start, todo - {id}, seen, swept)
    ensures steady ==> dir.Steady() && report.Residual?
    ensures steady ==> PassedSoFar(dir.kind, dir.syncs, d0, dir.disk, todo - {id}, swept, residuals + report.places)
    ensures steady && dir.syncs ==> Firmed(old(dir.disk), dir.disk)
  {
    var siblings := set n | n in names && n.Rollback? && n.id == id;
    SomeSibling(d0, id, siblings);
    ghost var before, past := dir.disk, dir.history;
    FreeSlots(todo, done, id);
    report := ReconcileEntity(dir, id, siblings, d0, done);
    seen := done + siblings + {Final(id)};
    TurnTaken(dir.kind, dir.syncs, d0, before, dir.disk, past, dir.history, start, id, siblings, todo, done, swept);
    if steady {
      PassedStep(dir.kind, dir.syncs, d0, before, dir.disk, id, todo, swept, siblings, residuals, report.places);
    }
  }

  lemma FreeSlots(todo: set<string>, done: set<Name>, id: string)
    requires id in todo && forall n | n in done :: !Awaiting(n, todo)
    ensures Final(id) !in done && forall k :: Rollback(id, k) !in done
  {
    assert Awaiting(Final(id), todo);
    assert forall k :: Awaiting(Rollback(id, k), todo);
  }

  // At most one ID has rollbacks.
  ghost predicate Single(d0: State) {
    forall a, b | a in RollbackIds(d0) && b in RollbackIds(d0) :: a == b
  }

  lemma OnlyId(d0: State, todo: set<string>, id: string)
    requires Single(d0) && id in todo && todo <= RollbackIds(d0)
    ensures todo == RollbackIds(d0) == {id}
  {
  }

  // The second loop: every ID that has a rollback.
  method ReconcileRollbacks(dir: Parent, names: set<Name>, found: set<Place>, ghost d0: State, ghost swept: set<Name>,
                            ghost steady: bool)
    returns (report: Report)
    requires dir.Valid() && names == d0.entries.Keys && swept == Candidates(d0.entries.Keys)
    requires Reach(dir.kind, false, d0, dir.disk) && Elsewhere(d0, dir.disk, swept)
    requires steady ==> dir.Steady() && SweptSoFar(d0, dir.disk, swept, found)
    modifies dir`clock, dir`disk, dir`history, dir`log
    ensures dir.Valid() && old(dir.history) <= dir.history
    ensures ReachSince(dir.kind, dir.syncs, d0, dir.history, |old(dir.history)|)
    ensures steady ==> dir.Steady() && Tidied(dir.kind, View(d0), View(dir.disk))
    ensures steady ==> report.Residual? && (dir.syncs ==> report.places == Residuals(dir.kind, View(d0)))
    ensures Single(d0) ==> Unsynced(dir.kind, d0, dir.history, |old(dir.history)| - 1, View(dir.disk))
    ensures steady && dir.syncs ==> Firmed(old(dir.disk), dir.disk)
  {
    var todo := set n | n in names && n.Rollback? :: n.id;
    var residuals := found;
    assert todo == RollbackIds(d0);
    ghost var start, done := |dir.history|, swept;
    if steady { PassStarts(dir.kind, dir.syncs, d0, dir.disk, todo, swept, found); }
    LoopStarts(dir.kind, dir.syncs, d0, dir.disk, dir.history, todo, swept);
    while todo != {}
      invariant dir.Valid() && old(dir.history) <= dir.history
      invariant PassKept(dir.kind, dir.syncs, d0, dir.disk, dir.history, start, todo, done, swept)
      invariant steady ==> dir.Steady() && PassedSoFar(dir.kind, dir.syncs, d0, dir.disk, todo, swept, residuals)
      invariant steady && dir.syncs ==> Firmed(old(dir.disk), dir.disk)
      decreases |todo|
    {
      var id :| id in todo;
      report, done := EntityTurn(dir, id, names, d0, todo, done, swept, start, residuals, steady);
      todo := todo - {id};
      if report.Escaped? { return; }
      residuals := residuals + report.places;
    }
    if steady { PassEnds(dir.kind, dir.syncs, d0, dir.disk, swept, done, residuals); }
    return Residual(residuals);
  }

  // `refuse_if_replaced`: after a mismatch the report goes through the channel nothing withdraws.
  method RefuseIfReplaced(dir: Parent, places: set<Place>) returns (report: Report)
    requires dir.Valid()
    modifies dir`clock, dir`log, dir`unproven
    ensures dir.Valid()
    ensures report.Residual? ==> places <= report.places && report.places <= places + {OutRoot}
    ensures report.Residual? && report.places != places ==> report.places <= dir.unproven
    ensures old(dir.Steady()) ==> dir.Steady() && report == Residual(places)
  {
    var st, answer := dir.Live();
    if st != Done { return Escaped(Raised(Interrupted)); }
    if answer { return Residual(places); }
    dir.unproven := dir.unproven + places + {OutRoot};
    return Residual(places + {OutRoot});
  }

  // What is in sight stays in sight, and what a crash could not lose it still cannot.
  ghost predicate CopiesKept(kind: Kind, d0: State, h: seq<State>, from: nat) {
    && (forall k, id | from <= k < |h| && HasCopy(kind, View(d0), id) :: HasCopy(kind, View(h[k]), id))
    && forall id | Lasting(kind, d0, id) :: Endures(kind, h, from, id)
  }

  // No crash in any of these states loses the last complete set of the ID.
  ghost predicate Endures(kind: Kind, h: seq<State>, from: nat, id: string) {
    forall k, img | from <= k < |h| && CrashImage(h[k], img) :: HasCopy(kind, img, id)
  }

  lemma ReachedKeepsCopies(kind: Kind, syncs: bool, d0: State, h: seq<State>, from: nat)
    requires ReachSince(kind, syncs, d0, h, from)
    ensures CopiesKept(kind, d0, h, from)
  {
    forall k, id | from <= k < |h| && HasCopy(kind, View(d0), id) ensures HasCopy(kind, View(h[k]), id) {
      SightKept(kind, syncs, d0, h[k], id);
    }
    forall id, k, img | Lasting(kind, d0, id) && from <= k < |h| && CrashImage(h[k], img)
      ensures HasCopy(kind, img, id)
    {
      LastingKept(kind, syncs, d0, h[k], id, img);
    }
  }

  // A run whose end was in sight before any sync loses what does not last.
  lemma UnsyncedLoses(kind: Kind, d0: State, h: seq<State>, from: nat, v: Tree, id: string)
    requires Unsynced(kind, d0, h, from, v) && Tidied(kind, View(d0), v) && !Lasting(kind, d0, id)
    ensures !Endures(kind, h, from, id)
  {
    var k: nat :| from <= k < |h| && Reach(kind, false, d0, h[k]) && View(h[k]) == v;
    var img := PiledLoses(kind, d0, h[k], id);
    assert CrashImage(h[k], img);
  }

  lemma LastingIffEndures(kind: Kind, d0: State, h: seq<State>, from: nat, v: Tree)
    requires CopiesKept(kind, d0, h, from) && Unsynced(kind, d0, h, from, v) && Tidied(kind, View(d0), v)
    ensures forall id :: Lasting(kind, d0, id) <==> Endures(kind, h, from, id)
  {
    forall id ensures Lasting(kind, d0, id) <==> Endures(kind, h, from, id) {
      if !Lasting(kind, d0, id) { UnsyncedLoses(kind, d0, h, from, v, id); }
    }
  }

  lemma SinceBefore(kind: Kind, syncs: bool, d0: State, h: seq<State>, from: nat)
    requires 0 < from <= |h| && h[from - 1] == d0 && ReachSince(kind, syncs, d0, h, from)
    ensures ReachSince(kind, syncs, d0, h, from - 1)
  {
    ReachStart(kind, syncs, d0);
  }

  /** `reconcile_managed_outputs` on one parent, whatever it finds there and
      whatever is still unflushed. However the pass fails or stops, it is in a
      state of `PassStates`: an ID with a complete set in sight keeps one in
      sight, and no crash, from the start on, loses the last one where `Lasting`
      held. That condition is exact: it is met if and only if no crash loses the
      set in a run without faults, where at most one ID has rollbacks, and for
      every directory in a run in which nothing fails but each sync of the
      parent. Without faults the outcome is `Tidied`, the report `Residuals`, and
      whatever was promoted or pruned is flushed. */
  method Reconcile(dir: Parent) returns (report: Report)
    requires dir.Valid()
    modifies dir
    ensures dir.Valid() && old(dir.history) <= dir.history
    ensures ReachSince(dir.kind, dir.syncs, old(dir.disk), dir.history, |old(dir.history)| - 1)
    ensures CopiesKept(dir.kind, old(dir.disk), dir.history, |old(dir.history)| - 1)
    ensures old(dir.Steady()) && (Single(old(dir.disk)) || !dir.syncs) ==>
              forall id :: Lasting(dir.kind, old(dir.disk), id)
                           <==> Endures(dir.kind, dir.history, |old(dir.history)| - 1, id)
    ensures old(dir.Steady()) ==> dir.Steady() && Tidied(dir.kind, View(old(dir.disk)), View(dir.disk))
    ensures old(dir.Calm()) ==>
              report == Residual(Residuals(dir.kind, View(old(dir.disk)))) && SettledSince(old(dir.disk), dir.disk)
  {
    ghost var d0: State := dir.disk;
    ghost var from := |dir.history| - 1;
    report := Pass(dir, d0);
    SinceBefore(dir.kind, dir.syncs, d0, dir.history, from + 1);
    ReachedKeepsCopies(dir.kind, dir.syncs, d0, dir.history, from);
    if old(dir.Steady()) && (Single(d0) || !dir.syncs) {
      if !dir.syncs { assert Reach(dir.kind, false, d0, dir.history[|dir.history| - 1]); }
      LastingIffEndures(dir.kind, d0, dir.history, from, View(dir.disk));
    }
  }

  method Pass(dir: Parent, ghost d0: State) returns (report: Report)
    requires dir.Valid() && dir.disk == d0
    modifies dir
    ensures dir.Valid() && old(dir.history) <= dir.history
    ensures ReachSince(dir.kind, dir.syncs, d0, dir.history, |old(dir.history)|)
    ensures old(dir.Steady()) ==> dir.Steady() && Tidied(dir.kind, View(d0), View(dir.disk)) && report.Residual?
    ensures old(dir.Steady()) && Single(d0) ==>
              Unsynced(dir.kind, d0, dir.history, |old(dir.history)| - 1, View(dir.disk))
    ensures old(dir.Calm()) ==> report == Residual(Residuals(dir.kind, View(d0))) && SettledSince(d0, dir.disk)
  {
    var st, answer := dir.Live();
    if st != Done { return Escaped(Raised(Interrupted)); }
    if !answer {
      report := RefuseIfReplaced(dir, {});
      return;
    }
    var listing := dir.Tick();
    if listing.Outcome() == Interrupted { return Escaped(Raised(Interrupted)); }
    if !listing.Fine? {
      report := RefuseIfReplaced(dir, {WholeParent});
      return;
    }
    report := PassOver(dir, dir.disk.entries.Keys, d0);
    if report.Residual? { report := RefuseIfReplaced(dir, report.places); }
  }

  // Nothing is left unflushed, unless only candidates were removed.
  ghost predicate SettledSince(a: State, b: State) {
    b.survivors == {b.entries} || Elsewhere(a, b, Candidates(a.entries.Keys))
  }

  // Both loops over the names listed.
  method PassOver(dir: Parent, names: set<Name>, ghost d0: State) returns (report: Report)
    requires dir.Valid() && dir.disk == d0 && names == d0.entries.Keys
    modifies dir`clock, dir`disk, dir`history, dir`log
    ensures dir.Valid() && old(dir.history) <= dir.history
    ensures ReachSince(dir.kind, dir.syncs, d0, dir.history, |old(dir.history)|)
    ensures old(dir.Steady()) ==> dir.Steady() && Tidied(dir.kind, View(d0), View(dir.disk)) && report.Residual?
    ensures old(dir.Steady()) && Single(d0) ==>
              Unsynced(dir.kind, d0, dir.history, |old(dir.history)| - 1, View(dir.disk))
    ensures old(dir.Calm()) ==> report == Residual(Residuals(dir.kind, View(d0))) && SettledSince(d0, dir.disk)
  {
    ghost var swept, past;
    report, swept := SweepCandidates(dir, d0);
    SinceMore(dir.kind, dir.syncs, d0, dir.history, |old(dir.history)|);
    if report.Residual? {
      past := dir.history;
      report := ReconcileRollbacks(dir, names, report.places, d0, swept, old(dir.Steady()));
      SinceJoin(dir.kind, dir.syncs, d0, past, dir.history, |old(dir.history)|);
    }
  }

  /** A second pass right after a first, both without faults, changes nothing in
      sight and reports the same, whatever the first one left unflushed. */
  method ReconcileTwice(dir: Parent) returns (first: Report, second: Report, ghost between: Tree)
    requires dir.Valid() && dir.Calm()
    modifies dir
    ensures dir.Valid() && dir.Calm()
    ensures Tidied(dir.kind, View(old(dir.disk)), between) && View(dir.disk) == between
    ensures first == second == Residual(Residuals(dir.kind, View(old(dir.disk))))
  {
    first := Reconcile(dir);
    between := View(dir.disk);
    second := Reconcile(dir);
    TidyTwice(dir.kind, View(old(dir.disk)), between, View(dir.disk));
  }

  /** Start-up after a crash anywhere in a publication: whatever the crash left,
      a pass without faults ends with the old or the new set at the final name. */
  method RecoverAfterCrash(dir: Parent, ghost id: string, ghost was: Option<Node>, ghost next: Node)
    returns (report: Report)
    requires dir.Valid() && dir.Calm()
    requires Recoverable(View(dir.disk), id, was, next)
    requires CompleteSet(dir.kind, id, next) && (was.Some? ==> CompleteSet(dir.kind, id, was.value))
    modifies dir
    ensures dir.Valid() && dir.Calm() && report.Residual?
    ensures Recovered(View(dir.disk), id, was, next)
    ensures forall k | Rollback(id, k) in View(dir.disk) :: Entry(Rollback(id, k)) in report.places
  {
    ghost var img := View(dir.disk);
    report := Reconcile(dir);
    RecoveryAfterCrash(dir.kind, img, View(dir.disk), id, was, next);
  }
}
