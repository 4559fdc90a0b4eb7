// One reserved parent directory as the managed-output protocol sees it: which
// names stand in it, what a crash may leave of it, and the trees below them.
module Disk {
  import opened Basics

  type Ino = nat

  datatype Kind = Assessment | Resume

  // SHA-256 is taken to be injective: a digest is the value it was taken of.
  datatype Digest = Sha256(of: Data)

  // A file holds either the canonical bytes of some manifest record or other bytes.
  datatype Data = ManifestText(manifest: Manifest) | Text(bytes: Bytes)

  datatype Manifest = Manifest(
    kind: Kind, entity: string, generation: string, run: string, identity: string,
    sourceIds: seq<string>, renderHash: string, digests: map<string, Digest>, createdAt: int)

  // A filesystem node; Special is anything that is neither a real file nor a real directory.
  datatype Node = File(data: Data) | Special | Folder(children: map<string, Node>)

  datatype Name =
    | Final(id: string)
    | Candidate(id: string, nonce: string)
    | Rollback(id: string, nonce: string)
    | Other(text: string)

  type Listing = map<Name, Ino>

  datatype Inode = Inode(node: Node, clean: bool)

  // `entries` is the directory as processes see it; `survivors` holds every
  // listing that a crash at this instant can leave; an inode that is not
  // `clean` has changes of its own that were not flushed.
  datatype Disk = Disk(entries: Listing, survivors: set<Listing>, inodes: map<Ino, Inode>)

  datatype Op = Make(name: Name, ino: Ino) | Move(src: Name, dst: Name) | Drop(name: Name)

  predicate ValidListing(m: Listing, inodes: map<Ino, Inode>) {
    && (forall n | n in m :: m[n] in inodes)
    && (forall a, b | a in m && b in m && a != b :: m[a] != m[b])
  }

  predicate ValidDisk(d: Disk) {
    && d.entries in d.survivors
    && forall m | m in d.survivors :: ValidListing(m, d.inodes)
  }

  type State = d: Disk | ValidDisk(d) witness Disk(map[], {map[]}, map[])

  function ApplyOp(m: Listing, op: Op): Listing {
    match op
    case Make(n, i) => m[n := i]
    case Move(s, t) => if s in m then (m - {s})[t := m[s]] else m
    case Drop(n) => m - {n}
  }

  // ---- Effects of the primitives ----

  function Change(d: Disk, op: Op): Disk {
    d.(entries := ApplyOp(d.entries, op),
       survivors := d.survivors + (set m | m in d.survivors :: ApplyOp(m, op)))
  }

  function MakeDir(d: Disk, n: Name, i: Ino): Disk {
    Change(d.(inodes := d.inodes[i := Inode(Folder(map[]), true)]), Make(n, i))
  }

  function Flush(d: Disk): Disk {
    d.(survivors := {d.entries})
  }

  function Rewrite(d: Disk, i: Ino, node: Node): Disk {
    d.(inodes := d.inodes[i := Inode(node, false)])
  }

  function FlushInode(d: Disk, i: Ino): Disk
    requires i in d.inodes
  {
    d.(inodes := d.inodes[i := d.inodes[i].(clean := true)])
  }

  lemma ChangeValid(d: Disk, op: Op)
    requires ValidDisk(d)
    requires op.Make? ==> op.ino in d.inodes && forall m, n | m in d.survivors && n in m :: m[n] != op.ino
    ensures ValidDisk(Change(d, op))
  {
    forall m | m in d.survivors
      ensures ValidListing(ApplyOp(m, op), d.inodes)
    {
      var r := ApplyOp(m, op);
      if op.Move? && op.src in m {
        assert forall n | n in r :: r[n] == if n == op.dst then m[op.src] else m[n];
      }
    }
  }

  // ---- What a crash leaves ----

  // The directory after a run of changes none of which was flushed.
  ghost function After(d: Disk, ops: seq<Op>): Disk {
    if ops == [] then d else Change(After(d, ops[..|ops| - 1]), ops[|ops| - 1])
  }

  ghost function Replay(base: Listing, ops: seq<Op>, kept: seq<bool>): Listing
    requires |kept| == |ops|
  {
    if ops == [] then base
    else
      var k := |ops| - 1;
      var m := Replay(base, ops[..k], kept[..k]);
      if kept[k] then ApplyOp(m, ops[k]) else m
  }

  // What a crash can leave of a directory flushed before the changes `ops` is
  // exactly what keeping any choice of those changes, and losing the others, makes of it.
  lemma {:induction false} SurvivorsKeepAnySubsequence(d: Disk, ops: seq<Op>, m: Listing)
    ensures m in After(Flush(d), ops).survivors
            <==> exists kept: seq<bool> :: |kept| == |ops| && m == Replay(d.entries, ops, kept)
  {
    if ops == [] {
      assert m in Flush(d).survivors ==> m == Replay(d.entries, ops, []);
    } else {
      var k := |ops| - 1;
      var s := After(Flush(d), ops[..k]).survivors;
      if m in After(Flush(d), ops).survivors {
        var last := m !in s;
        var before: Listing :| before in s && m == if last then ApplyOp(before, ops[k]) else before;
        SurvivorsKeepAnySubsequence(d, ops[..k], before);
        var kept: seq<bool> :| |kept| == k && before == Replay(d.entries, ops[..k], kept);
        assert (kept + [last])[..k] == kept;
        assert m == Replay(d.entries, ops, kept + [last]);
      }
      forall kept: seq<bool> | |kept| == |ops| && m == Replay(d.entries, ops, kept)
        ensures m in After(Flush(d), ops).survivors
      {
        SurvivorsKeepAnySubsequence(d, ops[..k], Replay(d.entries, ops[..k], kept[..k]));
      }
    }
  }

  // What is in sight after them has all of them.
  lemma {:induction false} AllChangesInSight(d: Disk, ops: seq<Op>)
    ensures After(d, ops).entries == Replay(d.entries, ops, seq(|ops|, _ => true))
  {
    if ops != [] {
      var k := |ops| - 1;
      AllChangesInSight(d, ops[..k]);
      assert seq(|ops|, _ => true)[..k] == seq(k, _ => true);
    }
  }

  // A crash loses or keeps the creations and removals inside an unflushed
  // directory freely, but it makes no link or special file of a plain one.
  ghost predicate LeftBy(i: Inode, n: Node) {
    if i.clean then n == i.node
    else n == i.node || (n.Folder? && (SafeTree(i.node) ==> SafeTree(n)))
  }

  ghost predicate ImageOf(m: Listing, inodes: map<Ino, Inode>, img: map<Name, Node>)
    requires ValidListing(m, inodes)
  {
    img.Keys == m.Keys && forall n | n in m :: LeftBy(inodes[m[n]], img[n])
  }

  ghost predicate CrashImage(d: Disk, img: map<Name, Node>)
    requires ValidDisk(d)
  {
    exists m :: m in d.survivors && ImageOf(m, d.inodes, img)
  }

  function View(d: Disk): map<Name, Node>
    requires ValidDisk(d)
  {
    map n | n in d.entries :: d.inodes[d.entries[n]].node
  }

  // ---- Trees ----

  predicate SafeTree(n: Node) {
    n.Folder? && forall k | k in n.children :: n.children[k].File? || SafeTree(n.children[k])
  }

  // Nothing in it, at any depth, is anything but a file or a folder.
  ghost predicate PlainThroughout(n: Node) {
    forall path | At(n, path).Some? :: !At(n, path).value.Special?
  }

  lemma {:induction false} SafeMeans(n: Node)
    ensures SafeTree(n) <==> n.Folder? && PlainThroughout(n)
    decreases n
  {
    if SafeTree(n) {
      forall path | At(n, path).Some? ensures !At(n, path).value.Special? { SafeAt(n, path); }
    } else if n.Folder? && PlainThroughout(n) {
      forall k | k in n.children ensures n.children[k].File? || SafeTree(n.children[k]) {
        ChildPlain(n, k);
        SafeMeans(n.children[k]);
      }
      assert SafeTree(n);
    }
  }

  lemma ChildPlain(n: Node, k: string)
    requires n.Folder? && k in n.children && PlainThroughout(n)
    ensures !n.children[k].Special? && PlainThroughout(n.children[k])
  {
    forall path | At(n.children[k], path).Some? ensures !At(n.children[k], path).value.Special? {
      assert ([k] + path)[1..] == path;
      assert At(n, [k] + path) == At(n.children[k], path);
    }
    assert At(n.children[k], []).Some?;
  }

  // Every file of `a` stands unchanged in `b`.
  ghost predicate PartOf(a: Node, b: Node) {
    || a == b
    || (a.Folder? && b.Folder? && a.children.Keys <= b.children.Keys
        && forall k | k in a.children :: PartOf(a.children[k], b.children[k]))
  }

  function At(n: Node, path: seq<string>): Option<Node> {
    if path == [] then Some(n)
    else if n.Folder? && path[0] in n.children then At(n.children[path[0]], path[1..])
    else None
  }

  function Without(n: Node, path: seq<string>): Node
    requires path != [] && At(n, path).Some?
  {
    var k := path[0];
    if |path| == 1 then Folder(n.children - {k})
    else Folder(n.children[k := Without(n.children[k], path[1..])])
  }

  lemma {:induction false} PartOfTransitive(a: Node, b: Node, c: Node)
    requires PartOf(a, b) && PartOf(b, c)
    ensures PartOf(a, c)
    decreases a
  {
    if a != b && b != c {
      forall k | k in a.children ensures PartOf(a.children[k], c.children[k]) {
        PartOfTransitive(a.children[k], b.children[k], c.children[k]);
      }
    }
  }

  lemma {:induction false} PartOfSafe(a: Node, b: Node)
    requires PartOf(a, b) && SafeTree(b)
    ensures SafeTree(a)
    decreases a
  {
    if a != b {
      forall k | k in a.children ensures a.children[k].File? || SafeTree(a.children[k]) {
        if !b.children[k].File? { PartOfSafe(a.children[k], b.children[k]); }
      }
    }
  }

  lemma {:induction false} AtChild(n: Node, path: seq<string>, k: string)
    requires At(n, path).Some? && At(n, path).value.Folder?
    ensures At(n, path + [k]) ==
            (if k in At(n, path).value.children then Some(At(n, path).value.children[k]) else None)
  {
    if path != [] {
      assert (path + [k])[1..] == path[1..] + [k];
      AtChild(n.children[path[0]], path[1..], k);
    } else {
      assert [k][1..] == [];
    }
  }

  // Taking out the child `k` of `path` leaves that directory short of exactly `k`,
  // and taking the directory out afterwards is taking it out at once.
  lemma {:induction false} WithoutChild(n: Node, path: seq<string>, k: string)
    requires At(n, path + [k]).Some?
    ensures At(n, path).Some? && At(n, path).value.Folder? && k in At(n, path).value.children
    ensures At(Without(n, path + [k]), path) == Some(Folder(At(n, path).value.children - {k}))
    ensures path != [] ==> Without(Without(n, path + [k]), path) == Without(n, path)
  {
    if path != [] {
      var p, rest := path + [k], path[1..];
      assert p[1..] == rest + [k] && p[0] == path[0];
      WithoutChild(n.children[p[0]], rest, k);
      if rest != [] {
        assert |path| > 1;
        var w := Without(n.children[p[0]], rest + [k]);
        calc {
          Without(Without(n, p), path);
          Without(Folder(n.children[p[0] := w]), path);
          Folder(n.children[p[0] := w][p[0] := Without(w, rest)]);
          { assert n.children[p[0] := w][p[0] := Without(w, rest)] == n.children[p[0] := Without(w, rest)]; }
          Folder(n.children[p[0] := Without(w, rest)]);
          Without(n, path);
        }
      } else {
        var w := Without(n.children[p[0]], [k]);
        assert n.children[p[0] := w] - {p[0]} == n.children - {p[0]};
      }
    }
  }

  lemma {:induction false} WithoutIsPart(n: Node, path: seq<string>)
    requires path != [] && At(n, path).Some?
    ensures PartOf(Without(n, path), n)
  {
    if |path| > 1 {
      WithoutIsPart(n.children[path[0]], path[1..]);
    }
  }

  lemma {:induction false} SafeAt(n: Node, path: seq<string>)
    requires SafeTree(n) && At(n, path).Some?
    ensures At(n, path).value.File? || SafeTree(At(n, path).value)
  {
    if path != [] {
      if n.children[path[0]].File? {
        assert path[1..] == [];
      } else {
        SafeAt(n.children[path[0]], path[1..]);
      }
    }
  }
}
