// What a start-up pass over one managed parent owes: which names go, which one
// is promoted and which are reported, as a relation between two trees.
module Tidy {
  import opened Basics
  import opened Disk
  import opened ManagedSet
  import opened Directory
  import opened Publish

  type Tree = map<Name, Node>

  // ---- What a pass without faults does, name by name ----

  ghost predicate Slot(n: Name, id: string) {
    n == Final(id) || (n.Rollback? && n.id == id)
  }

  // The one rollback of an ID whose final name is free, and it is complete.
  ghost predicate Promotes(kind: Kind, v: Tree, id: string, nonce: string) {
    && Rollback(id, nonce) in v && Final(id) !in v && CompleteSet(kind, id, v[Rollback(id, nonce)])
    && forall k :: Rollback(id, k) in v ==> k == nonce
  }

  // A complete rollback beside a complete final set.
  ghost predicate Superseded(kind: Kind, v: Tree, id: string, nonce: string) {
    && Rollback(id, nonce) in v && CompleteSet(kind, id, v[Rollback(id, nonce)])
    && Final(id) in v && CompleteSet(kind, id, v[Final(id)])
  }

  ghost predicate SlotsTidied(kind: Kind, v: Tree, w: Tree, id: string) {
    && (forall k :: Rollback(id, k) in w <==>
          Rollback(id, k) in v && !Promotes(kind, v, id, k) && !Superseded(kind, v, id, k))
    && (forall k :: Rollback(id, k) in w ==> w[Rollback(id, k)] == v[Rollback(id, k)])
    && (Final(id) in v ==> Final(id) in w && w[Final(id)] == v[Final(id)])
    && (Final(id) !in v ==>
          (Final(id) in w <==> exists k :: Promotes(kind, v, id, k))
          && forall k :: Promotes(kind, v, id, k) ==> Final(id) in w && w[Final(id)] == v[Rollback(id, k)])
  }

  ghost predicate Tidied(kind: Kind, v: Tree, w: Tree) {
    && (forall id :: SlotsTidied(kind, v, w, id))
    && (forall id, k :: Candidate(id, k) in w <==> Candidate(id, k) in v && !SafeTree(v[Candidate(id, k)]))
    && (forall id, k :: Candidate(id, k) in w ==> w[Candidate(id, k)] == v[Candidate(id, k)])
    && (forall t :: Other(t) in w <==> Other(t) in v)
    && (forall t :: Other(t) in w ==> w[Other(t)] == v[Other(t)])
  }

  // What such a pass reports.
  ghost predicate Reported(kind: Kind, v: Tree, n: Name)
    requires n in v
  {
    match n
    case Candidate(_, _) => !SafeTree(v[n])
    case Rollback(id, k) => !Promotes(kind, v, id, k) && !Superseded(kind, v, id, k)
    case Final(id) => !CompleteSet(kind, id, v[n]) && exists k :: Rollback(id, k) in v
    case Other(_) => false
  }

  ghost function Residuals(kind: Kind, v: Tree): set<Place> {
    set n | n in v && Reported(kind, v, n) :: Entry(n)
  }

  lemma NothingLeftToTidy(kind: Kind, v: Tree, w: Tree, id: string, k: string)
    requires SlotsTidied(kind, v, w, id)
    ensures !Promotes(kind, w, id, k) && !Superseded(kind, w, id, k)
    ensures Rollback(id, k) in w ==> Reported(kind, v, Rollback(id, k)) && Reported(kind, w, Rollback(id, k))
  {
  }

  lemma FinalReportedAlike(kind: Kind, v: Tree, w: Tree, id: string)
    requires SlotsTidied(kind, v, w, id)
    ensures (Final(id) in v && Reported(kind, v, Final(id))) <==> (Final(id) in w && Reported(kind, w, Final(id)))
  {
    if Final(id) in v && Reported(kind, v, Final(id)) {
      var k :| Rollback(id, k) in v;
      assert Rollback(id, k) in w;
    }
    if Final(id) in w && Final(id) !in v {
      var k :| Promotes(kind, v, id, k);
    }
  }

  lemma TidyTwiceAt(kind: Kind, v: Tree, w: Tree, x: Tree, n: Name)
    requires Tidied(kind, v, w) && Tidied(kind, w, x)
    ensures n in x <==> n in w
    ensures n in x ==> x[n] == w[n]
    ensures (n in w && Reported(kind, w, n)) <==> (n in v && Reported(kind, v, n))
  {
    match n
    case Final(id) =>
      assert SlotsTidied(kind, v, w, id) && SlotsTidied(kind, w, x, id);
      FinalReportedAlike(kind, v, w, id);
      forall k ensures !Promotes(kind, w, id, k) { NothingLeftToTidy(kind, v, w, id, k); }
    case Rollback(id, k) =>
      assert SlotsTidied(kind, v, w, id) && SlotsTidied(kind, w, x, id);
      NothingLeftToTidy(kind, v, w, id, k);
    case Candidate(_, _) =>
    case Other(_) =>
  }

  /** A second pass finds nothing to do and reports the same. */
  lemma TidyTwice(kind: Kind, v: Tree, w: Tree, x: Tree)
    requires Tidied(kind, v, w) && Tidied(kind, w, x)
    ensures x == w && Residuals(kind, w) == Residuals(kind, v)
  {
    forall n ensures n in x <==> n in w ensures n in x ==> x[n] == w[n] {
      TidyTwiceAt(kind, v, w, x, n);
    }
    assert x.Keys == w.Keys;
    ResidualsAlike(kind, v, w, x);
  }

  lemma ResidualsAlike(kind: Kind, v: Tree, w: Tree, x: Tree)
    requires Tidied(kind, v, w) && Tidied(kind, w, x)
    ensures Residuals(kind, w) == Residuals(kind, v)
  {
    forall n ensures (n in w && Reported(kind, w, n)) <==> (n in v && Reported(kind, v, n)) {
      TidyTwiceAt(kind, v, w, x, n);
    }
  }

  // The old or the new set stands at the final name (or nothing, where nothing
  // stood before) and no candidate is left.
  ghost predicate Recovered(w: Tree, id: string, was: Option<Node>, next: Node) {
    && (was.Some? ==> Final(id) in w)
    && (Final(id) in w ==> w[Final(id)] == next || was == Some(w[Final(id)]))
    && forall k :: Candidate(id, k) !in w
  }

  /** After a crash anywhere in a publication, a pass without faults leaves the
      old or the new set at the final name, no candidate of that ID, and reports
      every rollback it leaves. */
  lemma RecoveryAfterCrash(kind: Kind, img: Tree, w: Tree, id: string, was: Option<Node>, next: Node)
    requires Recoverable(img, id, was, next) && Tidied(kind, img, w)
    requires CompleteSet(kind, id, next) && (was.Some? ==> CompleteSet(kind, id, was.value))
    ensures Recovered(w, id, was, next)
    ensures forall k :: Rollback(id, k) in w ==> Entry(Rollback(id, k)) in Residuals(kind, img)
  {
    assert SlotsTidied(kind, img, w, id);
    if Final(id) !in img && was.Some? {
      var r :| Rollback(id, r) in img && img[Rollback(id, r)] == was.value
               && forall k :: Rollback(id, k) in img ==> k == r;
      assert Promotes(kind, img, id, r);
    }
    forall k | Rollback(id, k) in w ensures Entry(Rollback(id, k)) in Residuals(kind, img) {
      assert Reported(kind, img, Rollback(id, k));
    }
  }

  // ---- The copies of a set ----

  ghost predicate HasCopy(kind: Kind, v: Tree, id: string) {
    || (Final(id) in v && CompleteSet(kind, id, v[Final(id)]))
    || exists k :: Rollback(id, k) in v && CompleteSet(kind, id, v[Rollback(id, k)])
  }

  // Nothing is unflushed, as after a crash.
  ghost predicate Settled(d: Disk) {
    ValidDisk(d) && d.survivors == {d.entries} && forall i | i in d.inodes :: d.inodes[i].clean
  }

  ghost function Found(d0: State, n: Name): Node
    requires n in d0.entries
  {
    d0.inodes[d0.entries[n]].node
  }
}
