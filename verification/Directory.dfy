// The directory operations the protocol is built from. Every operation asks
// the fault oracle once: it may fail or be interrupted before it takes effect,
// or after. Every directory state that ever holds is kept in `history`.
module Directory {
  import opened Basics
  import opened Disk
  import opened ManagedSet

  datatype Fault = Fine | ErrorBefore | ErrorAfter | InterruptBefore | InterruptAfter {
    predicate Spoils() { ErrorBefore? || InterruptBefore? }

    function Outcome(): Status {
      if Fine? then Done else if ErrorBefore? || ErrorAfter? then OsError else Interrupted
    }
  }

  datatype Status = Done | OsError | Interrupted

  // The places a residual report can name.
  datatype Place = OutRoot | WholeParent | Entry(name: Name)

  // What the writer-lock binding was asked and answered, each unlink or rmdir,
  // each mkdir or file written, and each rename; `MovedBack` undoes one of this run.
  datatype Event = Asked(answer: bool) | Removed | Wrote | Moved | MovedBack

  // The binding has just been confirmed.
  ghost predicate Confirmed(log: seq<Event>) {
    log != [] && log[|log| - 1] == Asked(true)
  }

  ghost predicate Guarded(log: seq<Event>) {
    forall i | 0 <= i < |log| :: log[i].Asked? || log[i].MovedBack? || Confirmed(log[..i])
  }

  // Once the binding fails for good, nothing is written, renamed or unlinked any
  // more, except that the one rename made before may be undone.
  lemma NoChangeOnceReplaced(log: seq<Event>, q: nat)
    requires Guarded(log) && q < |log| && log[q] == Asked(false)
    requires forall i | q <= i < |log| && log[i].Asked? :: !log[i].answer
    ensures forall i | q <= i < |log| :: log[i] == Asked(false) || log[i] == MovedBack
  {
    forall i | q <= i < |log| ensures log[i] == Asked(false) || log[i] == MovedBack {
      if !log[i].Asked? && !log[i].MovedBack? { assert Confirmed(log[..i]); }
    }
  }

  lemma Logged(log: seq<Event>, e: Event)
    requires Guarded(log) && (e.Asked? || e.MovedBack? || Confirmed(log))
    ensures Guarded(log + [e])
  {
    forall i | 0 <= i <= |log|
      ensures var l := log + [e]; l[i].Asked? || l[i].MovedBack? || Confirmed(l[..i])
    {
      assert (log + [e])[..i] == log[..i];
      assert log[..|log|] == log;
    }
  }

  // `b` differs from `a` only below inode `i`, whose files are still files of `a`.
  ghost predicate Nibbled(a: Disk, b: Disk, i: Ino) {
    && b.entries == a.entries && b.survivors == a.survivors && b.inodes.Keys == a.inodes.Keys
    && i in a.inodes
    && (forall j | j in a.inodes && j != i :: b.inodes[j] == a.inodes[j])
    && PartOf(b.inodes[i].node, a.inodes[i].node)
    && (b.inodes[i] != a.inodes[i] ==> SafeTree(a.inodes[i].node) && !b.inodes[i].clean)
  }

  // `b` is `a` part-way through the removal of the entry `n`, which goes once it is empty.
  ghost predicate Shrunk(a: Disk, b: Disk, n: Name)
    requires n in a.entries
  {
    var rest := b.(entries := a.entries, survivors := a.survivors);
    && Nibbled(a, rest, a.entries[n])
    && (b == rest || (rest.inodes[a.entries[n]].node == Folder(map[]) && b == Change(rest, Drop(n))))
  }

  lemma NibbledTransitive(a: Disk, b: Disk, c: Disk, i: Ino)
    requires Nibbled(a, b, i) && Nibbled(b, c, i)
    ensures Nibbled(a, c, i)
  {
    PartOfTransitive(c.inodes[i].node, b.inodes[i].node, a.inodes[i].node);
    if c.inodes[i] != b.inodes[i] && b.inodes[i] == a.inodes[i] {
    }
  }

  lemma NibbledThroughout(a: State, b: State, h: seq<State>, from: nat, i: Ino)
    requires Nibbled(a, b, i) && forall k | from <= k < |h| :: Nibbled(b, h[k], i)
    ensures forall k | from <= k < |h| :: Nibbled(a, h[k], i)
  {
    forall k | from <= k < |h| ensures Nibbled(a, h[k], i) {
      NibbledTransitive(a, b, h[k], i);
    }
  }

  class Parent {
    const kind: Kind
    const faults: nat -> Fault
    const live: nat -> bool
    const syncs: bool  // false where every sync of the parent fails without effect
    var clock: nat
    var disk: Disk
    var unproven: set<Place>  // reports that no later existence check may withdraw
    ghost var history: seq<State>
    ghost var log: seq<Event>

    ghost predicate Valid()
      reads this
    {
      && ValidDisk(disk) && Guarded(log)
      && EndsAt(history, disk)
    }

    // From here on nothing but a sync of the parent fails, nothing interrupts, and
    // the workspace is the locked one.
    ghost predicate Steady()
      reads `clock
    {
      SteadyFrom(clock)
    }

    ghost predicate SteadyFrom(c: nat) {
      forall t: nat | c <= t :: faults(t).Fine? && live(t)
    }

    // From here on at most one operation fails, none is interrupted, and the
    // workspace is the locked one.
    ghost predicate OneError()
      reads `clock
    {
      && syncs && (forall t: nat | clock <= t :: faults(t).Outcome() != Interrupted && live(t))
      && forall t: nat, u: nat | clock <= t < u :: faults(t).Fine? || faults(u).Fine?
    }

    // From here on no operation fails at all.
    ghost predicate Calm()
      reads `clock
    {
      Steady() && syncs
    }

    constructor (kind: Kind, faults: nat -> Fault, live: nat -> bool, syncs: bool, disk: Disk)
      requires ValidDisk(disk)
      ensures Valid() && this.kind == kind && this.faults == faults && this.live == live && this.syncs == syncs
      ensures clock == 0 && this.disk == disk && history == [disk] && log == []
    {
      this.kind, this.faults, this.live, this.syncs := kind, faults, live, syncs;
      clock, this.disk, unproven, history, log := 0, disk, {}, [disk], [];
    }

    method Tick() returns (f: Fault)
      modifies `clock
      ensures f == faults(old(clock)) && clock == old(clock) + 1
      ensures old(Steady()) ==> Steady() && f.Fine?
      ensures old(OneError()) ==> OneError() && f.Outcome() != Interrupted && (!f.Fine? ==> Calm())
    {
      f := faults(clock);
      clock := clock + 1;
    }

    // The `still_live` question.
    method Live() returns (st: Status, answer: bool)
      requires Valid()
      modifies `clock, `log
      ensures Valid() && clock == old(clock) + 1
      ensures st == Done || st == Interrupted
      ensures st == Done ==> log == old(log) + [Asked(answer)]
      ensures st != Done ==> !answer && log == old(log)
      ensures old(Steady()) ==> Steady() && st == Done && answer
      ensures old(OneError()) ==> OneError() && st == Done && answer
    {
      var now := clock;
      var f := Tick();
      if f.InterruptBefore? || f.InterruptAfter? {
        return Interrupted, false;
      }
      st, answer := Done, live(now);
      Logged(log, Asked(answer));
      log := log + [Asked(answer)];
    }

    // Does the name stand here? (`_lstat`)
    method Present(n: Name) returns (st: Status, present: bool)
      modifies `clock
      ensures clock == old(clock) + 1
      ensures st == Done ==> present == (n in disk.entries)
      ensures old(Steady()) ==> Steady() && st == Done
      ensures old(OneError()) ==> OneError()
    {
      var f := Tick();
      return f.Outcome(), n in disk.entries;
    }

    // `_inspect_set`: a failed read counts as a set that does not match.
    method InspectSet(n: Name, entity: string) returns (st: Status, manifest: Option<Manifest>)
      requires Valid()
      modifies `clock
      ensures clock == old(clock) + 1
      ensures st == Done || st == Interrupted
      ensures st != Done ==> manifest.None?
      ensures manifest.Some? ==> n in disk.entries
      ensures manifest.Some? ==> manifest == Inspect(kind, entity, disk.inodes[disk.entries[n]].node)
      ensures old(Steady()) ==> Steady() && st == Done
      ensures old(Steady()) && n in disk.entries ==>
                manifest == Inspect(kind, entity, disk.inodes[disk.entries[n]].node)
      ensures old(OneError()) ==> OneError()
    {
      var f := Tick();
      if f.InterruptBefore? || f.InterruptAfter? {
        return Interrupted, None;
      }
      if !f.Fine? || n !in disk.entries {
        return Done, None;
      }
      return Done, Inspect(kind, entity, disk.inodes[disk.entries[n]].node);
    }

    // `_rename`: the source is a real directory and the destination is free.
    method Rename(src: Name, dst: Name, ghost undo: bool) returns (st: Status)
      requires Valid() && if undo then src.Rollback? && dst == Final(src.id) else Confirmed(log)
      modifies `clock, `disk, `history, `log
      ensures Valid() && clock == old(clock) + 1 && history == old(history) + [disk]
      ensures disk == old(disk) || (CanRename(old(disk), src, dst) && disk == Change(old(disk), Move(src, dst)))
      ensures st == Done ==> disk != old(disk)
      ensures log == if disk == old(disk) then old(log) else old(log) + [if undo then MovedBack else Moved]
      ensures old(Steady()) ==> Steady() && st == (if CanRename(old(disk), src, dst) then Done else OsError)
      ensures old(OneError()) ==> OneError() && (CanRename(old(disk), src, dst) && st != Done ==> Calm())
    {
      var f := Tick();
      st := f.Outcome();
      if !f.Spoils() && src in disk.entries && dst !in disk.entries && disk.inodes[disk.entries[src]].node.Folder? {
        Enact(Move(src, dst), if undo then MovedBack else Moved);
        assert dst in disk.entries;
      } else {
        history := history + [disk];
        if st == Done { st := OsError; }
      }
    }

    // A rename or removal in the parent takes effect.
    method Enact(op: Op, ghost e: Event)
      requires Valid() && !op.Make? && (e.MovedBack? || Confirmed(log))
      modifies `disk, `history, `log
      ensures Valid() && disk == Change(old(disk), op) && history == old(history) + [disk] && log == old(log) + [e]
    {
      ChangeValid(disk, op);
      Logged(log, e);
      disk, log := Change(disk, op), log + [e];
      history := history + [disk];
    }

    // `_fsync_directory` on the parent itself.
    method FsyncParent() returns (st: Status)
      requires Valid()
      modifies `clock, `disk, `history
      ensures Valid() && clock == old(clock) + 1 && history == old(history) + [disk]
      ensures disk == old(disk) || disk == Flush(old(disk))
      ensures st == Done ==> disk == Flush(old(disk))
      ensures !syncs ==> disk == old(disk) && st != Done
      ensures old(Steady()) ==> Steady() && st == if syncs then Done else OsError
      ensures old(OneError()) ==> OneError() && (st != Done ==> Calm())
    {
      var f := Tick();
      if !syncs && !f.Outcome().Interrupted? { f := ErrorBefore; }
      if syncs && !f.Spoils() {
        disk := Flush(disk);
      }
      history := history + [disk];
      return f.Outcome();
    }

    // `_mkdir_private` for a name nobody holds.
    method MkDir(n: Name, i: Ino) returns (st: Status)
      requires Valid() && i !in disk.inodes && Confirmed(log)
      modifies `clock, `disk, `history, `log
      ensures Valid() && clock == old(clock) + 1 && history == old(history) + [disk]
      ensures disk == old(disk) || (n !in old(disk).entries && disk == MakeDir(old(disk), n, i))
      ensures st == Done ==> i in disk.inodes
      ensures old(Steady()) && n !in old(disk).entries ==> st == Done
      ensures old(Steady()) ==> Steady()
      ensures old(OneError()) ==> OneError()
      ensures disk != old(disk) ==> log == old(log) + [Wrote]
    {
      var f := Tick();
      st := f.Outcome();
      if !f.Spoils() {
        if n !in disk.entries {
          var grown := disk.(inodes := disk.inodes[i := Inode(Folder(map[]), true)]);
          assert forall m | m in disk.survivors :: ValidListing(m, grown.inodes);
          ChangeValid(grown, Make(n, i));
          disk := MakeDir(disk, n, i);
          Logged(log, Wrote);
          log := log + [Wrote];
        } else if st == Done {
          st := OsError;
        }
      }
      history := history + [disk];
    }

    // One effect inside the directory behind inode `i`.
    method Edit(i: Ino, node: Node) returns (st: Status)
      requires Valid() && i in disk.inodes
      modifies `clock, `disk, `history
      ensures Valid() && clock == old(clock) + 1 && history == old(history) + [disk]
      ensures disk == old(disk) || disk == Rewrite(old(disk), i, node)
      ensures st == Done ==> disk == Rewrite(old(disk), i, node)
      ensures old(Steady()) ==> Steady() && st == Done
      ensures old(OneError()) ==> OneError()
    {
      var f := Tick();
      if !f.Spoils() {
        disk := Rewrite(disk, i, node);
      }
      history := history + [disk];
      return f.Outcome();
    }

    // `_write_private_file`: an exclusive creation, then the whole data. In
    // between the file holds whatever prefix (`torn`) reached the disk.
    method WriteFile(n: Name, member: string, data: Data, torn: Bytes) returns (st: Status)
      requires Valid() && Confirmed(log)
      requires n in disk.entries && disk.inodes[disk.entries[n]].node.Folder?
      modifies `clock, `disk, `history, `log
      ensures Valid() && old(history) <= history
      ensures disk.entries == old(disk.entries)
      ensures forall k | |old(history)| <= k < |history| :: EditedOnly(old(disk), history[k], old(disk.entries)[n])
      ensures EditedOnly(old(disk), disk, old(disk.entries)[n])
      ensures st == Done ==> member !in old(disk).inodes[disk.entries[n]].node.children
      ensures st == Done ==>
                disk.inodes[disk.entries[n]]
                == Inode(Folder(old(disk).inodes[disk.entries[n]].node.children[member := File(data)]), false)
      ensures old(Steady()) ==> Steady()
      ensures old(Steady()) && member !in old(disk).inodes[old(disk.entries)[n]].node.children ==> st == Done
      ensures old(OneError()) ==> OneError()
      ensures disk != old(disk) ==> log == old(log) + [Wrote]
    {
      var i := disk.entries[n];
      var was := disk.inodes[i].node;
      if member in was.children {
        var f := Tick();
        return if f.Fine? then OsError else f.Outcome();
      }
      Logged(log, Wrote);
      log := log + [Wrote];
      st := Edit(i, Folder(was.children[member := File(Text(torn))]));
      if st != Done { return; }
      st := Edit(i, Folder(was.children[member := File(data)]));
    }

    // `_fsync_directory` on one set directory.
    method FsyncSet(n: Name) returns (st: Status)
      requires Valid() && n in disk.entries
      modifies `clock, `disk, `history
      ensures Valid() && clock == old(clock) + 1 && history == old(history) + [disk]
      ensures disk == old(disk) || disk == FlushInode(old(disk), old(disk).entries[n])
      ensures st == Done ==> disk == FlushInode(old(disk), old(disk).entries[n])
      ensures old(Steady()) ==> Steady() && st == Done
      ensures old(OneError()) ==> OneError()
    {
      var f := Tick();
      if !f.Spoils() {
        disk := FlushInode(disk, disk.entries[n]);
      }
      history := history + [disk];
      return f.Outcome();
    }

    method RemoveTree(n: Name) returns (st: Status, removed: bool)
      requires Valid()
      modifies `clock, `disk, `history, `log
      ensures Valid() && old(history) <= history
      ensures st == Done || (st == Interrupted && !removed)
      ensures removed ==> n in old(disk).entries && n !in disk.entries
      ensures n !in old(disk).entries ==> disk == old(disk) && history == old(history)
      ensures n in old(disk).entries ==> Shrunk(old(disk), disk, n)
      ensures n in old(disk).entries ==>
                forall k | |old(history)| <= k < |history| :: Shrunk(old(disk), history[k], n)
      ensures old(Steady()) ==> Steady() && st == Done
      ensures old(Steady()) ==>
                (removed <==> n in old(disk).entries && SafeTree(old(disk).inodes[old(disk).entries[n]].node))
      ensures old(Steady()) && !removed ==> disk == old(disk)
    {
      var answer: bool;
      removed := false;
      st, answer := Live();
      if !answer { return; }
      var f := Tick();
      if !f.Fine? { return (if f.Outcome() == Interrupted then Interrupted else Done), false; }
      if n !in disk.entries || !SafeTree(disk.inodes[disk.entries[n]].node) { return; }
      var i := disk.entries[n];
      st, answer := RemoveChildren(i, []);
      if !answer { return; }
      st, answer := Live();
      if !answer { return; }
      st, removed := Unhook(n);
    }

    // The closing rmdir, or the unlink of a plain file; the binding has just been confirmed.
    method Unhook(n: Name) returns (st: Status, removed: bool)
      requires Valid() && n in disk.entries
      requires disk.inodes[disk.entries[n]].node == Folder(map[]) || disk.inodes[disk.entries[n]].node.File?
      requires Confirmed(log)
      modifies `clock, `disk, `history, `log
      ensures Valid() && clock == old(clock) + 1 && history == old(history) + [disk]
      ensures disk == old(disk) || disk == Change(old(disk), Drop(n))
      ensures st == Done || (st == Interrupted && !removed)
      ensures removed ==> disk == Change(old(disk), Drop(n))
      ensures old(Steady()) ==> Steady() && st == Done && removed
    {
      var f := Tick();
      if f.Spoils() { history := history + [disk]; } else { Enact(Drop(n), Removed); }
      st := if f.Outcome() == Interrupted then Interrupted else Done;
      removed := f.Fine?;
    }

    // `_remove_tree` on a directory below a set.
    method RemoveFolder(i: Ino, path: seq<string>, ghost was: Node) returns (st: Status, removed: bool)
      requires Valid() && i in disk.inodes && path != [] && was.Folder?
      requires At(disk.inodes[i].node, path) == Some(was) && SafeTree(disk.inodes[i].node)
      modifies `clock, `disk, `history, `log
      ensures Valid() && old(history) <= history
      ensures st == Done || (st == Interrupted && !removed)
      ensures Nibbled(old(disk), disk, i)
      ensures removed ==> disk.inodes[i].node == Without(old(disk).inodes[i].node, path)
      ensures forall k | |old(history)| <= k < |history| :: Nibbled(old(disk), history[k], i)
      ensures old(Steady()) ==> Steady() && st == Done && removed
      decreases was, 1
    {
      ghost var start := disk;
      var answer: bool;
      removed := false;
      st, answer := Live();
      if !answer { return; }
      var f := Tick();
      if !f.Fine? { return (if f.Outcome() == Interrupted then Interrupted else Done), false; }
      SafeAt(disk.inodes[i].node, path);
      st, answer := RemoveChildren(i, path);
      if !answer { return; }
      ghost var before, mark := disk, |history|;
      PartOfSafe(disk.inodes[i].node, start.inodes[i].node);
      st, answer := Live();
      if !answer { return; }
      st, removed := Unlink(i, path);
      NibbledTransitive(start, before, disk, i);
    }

    // The loop of `_remove_tree`: every child of the directory at `path`.
    method RemoveChildren(i: Ino, path: seq<string>) returns (st: Status, removed: bool)
      requires Valid() && i in disk.inodes && SafeTree(disk.inodes[i].node)
      requires At(disk.inodes[i].node, path).Some? && SafeTree(At(disk.inodes[i].node, path).value)
      modifies `clock, `disk, `history, `log
      ensures Valid() && old(history) <= history
      ensures st == Done || (st == Interrupted && !removed)
      ensures Nibbled(old(disk), disk, i)
      ensures removed ==> At(disk.inodes[i].node, path) == Some(Folder(map[]))
      ensures removed && path != [] ==> Without(disk.inodes[i].node, path) == Without(old(disk).inodes[i].node, path)
      ensures forall k | |old(history)| <= k < |history| :: Nibbled(old(disk), history[k], i)
      ensures old(Steady()) ==> Steady() && st == Done && removed
      decreases At(disk.inodes[i].node, path).value, 0
    {
      ghost var start := disk;
      var was := At(disk.inodes[i].node, path).value;
      var todo := was.children.Keys;
      ghost var left := was.children;
      removed := false;
      while todo != {}
        invariant Valid() && old(history) <= history && todo <= was.children.Keys && !removed
        invariant Nibbled(start, disk, i)
        invariant left.Keys == todo && forall k | k in todo :: left[k] == was.children[k]
        invariant At(disk.inodes[i].node, path) == Some(Folder(left))
        invariant path != [] ==> Without(disk.inodes[i].node, path) == Without(start.inodes[i].node, path)
        invariant forall k | |old(history)| <= k < |history| :: Nibbled(start, history[k], i)
        invariant old(Steady()) ==> Steady()
        decreases |todo|
      {
        var k :| k in todo;
        AtChild(disk.inodes[i].node, path, k);
        WithoutChild(disk.inodes[i].node, path, k);
        var answer: bool;
        st, answer := RemoveNext(i, path + [k], was.children[k], start, |old(history)|);
        if !answer { return; }
        todo, left := todo - {k}, left - {k};
      }
      assert left == map[];
      return Done, true;
    }

    // One turn of that loop, in a removal that found `start`.
    method RemoveNext(i: Ino, path: seq<string>, child: Node, ghost start: State, ghost from: nat)
      returns (st: Status, removed: bool)
      requires Valid() && path != [] && (child.File? || SafeTree(child))
      requires Nibbled(start, disk, i) && SafeTree(start.inodes[i].node) && from <= |history|
      requires At(disk.inodes[i].node, path) == Some(child)
      requires forall k | from <= k < |history| :: Nibbled(start, history[k], i)
      modifies `clock, `disk, `history, `log
      ensures Valid() && old(history) <= history
      ensures st == Done || (st == Interrupted && !removed)
      ensures Nibbled(start, disk, i)
      ensures removed ==> disk.inodes[i].node == Without(old(disk).inodes[i].node, path)
      ensures forall k | from <= k < |history| :: Nibbled(start, history[k], i)
      ensures old(Steady()) ==> Steady() && st == Done && removed
      decreases child, 3
    {
      ghost var before, mark := disk, |history|;
      PartOfSafe(disk.inodes[i].node, start.inodes[i].node);
      st, removed := RemoveChild(i, path, child);
      NibbledTransitive(start, before, disk, i);
      NibbledThroughout(start, before, history, mark, i);
    }

    // One entry below a set.
    method RemoveChild(i: Ino, path: seq<string>, child: Node) returns (st: Status, removed: bool)
      requires Valid() && i in disk.inodes && path != [] && (child.File? || SafeTree(child))
      requires At(disk.inodes[i].node, path) == Some(child) && SafeTree(disk.inodes[i].node)
      modifies `clock, `disk, `history, `log
      ensures Valid() && old(history) <= history
      ensures st == Done || (st == Interrupted && !removed)
      ensures Nibbled(old(disk), disk, i)
      ensures removed ==> disk.inodes[i].node == Without(old(disk).inodes[i].node, path)
      ensures forall k | |old(history)| <= k < |history| :: Nibbled(old(disk), history[k], i)
      ensures old(Steady()) ==> Steady() && st == Done && removed
      decreases child, 2
    {
      var f := Tick();
      if !f.Fine? { return (if f.Outcome() == Interrupted then Interrupted else Done), false; }
      if child.Folder? {
        st, removed := RemoveFolder(i, path, child);
      } else {
        var answer: bool;
        st, answer := Live();
        if !answer { return st, false; }
        st, removed := Unlink(i, path);
      }
    }

    // One unlink or rmdir below a set; the binding has just been confirmed.
    method Unlink(i: Ino, path: seq<string>) returns (st: Status, removed: bool)
      requires Valid() && i in disk.inodes && SafeTree(disk.inodes[i].node)
      requires path != [] && At(disk.inodes[i].node, path).Some?
      requires Confirmed(log)
      modifies `clock, `disk, `history, `log
      ensures Valid() && clock == old(clock) + 1 && history == old(history) + [disk]
      ensures Nibbled(old(disk), disk, i)
      ensures st == Done || (st == Interrupted && !removed)
      ensures removed ==> disk.inodes[i].node == Without(old(disk).inodes[i].node, path)
      ensures old(Steady()) ==> Steady() && st == Done && removed
    {
      WithoutIsPart(disk.inodes[i].node, path);
      var f := Tick();
      if !f.Spoils() {
        disk := Rewrite(disk, i, Without(disk.inodes[i].node, path));
        Logged(log, Removed);
        log := log + [Removed];
      }
      history := history + [disk];
      st := if f.Outcome() == Interrupted then Interrupted else Done;
      removed := f.Fine?;
    }
  }

  ghost predicate EndsAt(h: seq<State>, d: Disk) {
    h != [] && h[|h| - 1] == d
  }

  predicate CanRename(d: Disk, src: Name, dst: Name)
    requires forall n | n in d.entries :: d.entries[n] in d.inodes
  {
    src in d.entries && dst !in d.entries && d.inodes[d.entries[src]].node.Folder?
  }

  ghost predicate EditedOnly(a: Disk, b: Disk, i: Ino) {
    && b.entries == a.entries && b.survivors == a.survivors && b.inodes.Keys == a.inodes.Keys
    && (forall j | j in a.inodes && j != i :: b.inodes[j] == a.inodes[j])
    && i in a.inodes
    && (b.inodes[i] == a.inodes[i]
        || (a.inodes[i].node.Folder? && b.inodes[i].node.Folder? && !b.inodes[i].clean
            && forall k | k in b.inodes[i].node.children ::
                 (k in a.inodes[i].node.children && b.inodes[i].node.children[k] == a.inodes[i].node.children[k])
                 || b.inodes[i].node.children[k].File?))
  }
}
