// What makes one directory tree a complete managed set, and when a stored
// manifest agrees with the graph a caller exports.
module ManagedSet {
  import opened Basics
  import opened Disk

  const MANIFEST := "manifest.json"

  function MemberNames(kind: Kind): set<string> {
    match kind
    case Assessment => {"evidence_map.json", "report.html", "report.md", "self_claims.json"}
    case Resume => {"bullet_pack.md", "evidence_map.json", "verification_report.json"}
  }

  predicate SchemaValid(m: Manifest) {
    m.digests.Keys == MemberNames(m.kind)
  }

  // What the caller's database snapshot says about the set to publish.
  datatype Graph = Graph(
    kind: Kind, entity: string, generation: string, run: string, identity: string,
    sourceIds: seq<string>, renderHash: string)

  function BuildManifest(g: Graph, members: map<string, Data>, createdAt: int): Manifest {
    Manifest(g.kind, g.entity, g.generation, g.run, g.identity, g.sourceIds, g.renderHash,
             map n | n in members :: Sha256(members[n]), createdAt)
  }

  function SetOf(members: map<string, Data>, m: Manifest): Node {
    Folder((map n | n in members :: File(members[n]))[MANIFEST := File(ManifestText(m))])
  }

  predicate MatchesPrior(m: Manifest, g: Graph) {
    m.kind == g.kind && m.entity == g.entity && m.generation == g.generation
    && m.run == g.run && m.identity == g.identity
  }

  predicate MatchesCurrent(m: Manifest, g: Graph) {
    MatchesPrior(m, g) && m.sourceIds == g.sourceIds && m.renderHash == g.renderHash
  }

  // The fault-free reading of one set: its manifest when everything agrees.
  function Inspect(kind: Kind, entity: string, n: Node): Option<Manifest> {
    if !n.Folder? || n.children.Keys != MemberNames(kind) + {MANIFEST} then None
    else
      var stored := n.children[MANIFEST];
      if !stored.File? || !stored.data.ManifestText? then None
      else
        var m := stored.data.manifest;
        if m.kind != kind || !SchemaValid(m) || m.entity != entity then None
        else if forall k | k in MemberNames(kind) ::
                  n.children[k].File? && Sha256(n.children[k].data) == m.digests[k]
        then Some(m)
        else None
  }

  predicate CompleteSet(kind: Kind, entity: string, n: Node) {
    Inspect(kind, entity, n).Some?
  }

  // A complete set is the set its manifest names and nothing else, so two
  // complete sets with one manifest hold the same bytes.
  lemma CompleteSetIsItsManifest(kind: Kind, entity: string, n: Node)
    requires CompleteSet(kind, entity, n)
    ensures SafeTree(n)
    ensures var m := Inspect(kind, entity, n).value;
            n == SetOf(map k | k in m.digests :: m.digests[k].of, m)
  {
    var m := Inspect(kind, entity, n).value;
    var s := SetOf(map k | k in m.digests :: m.digests[k].of, m);
    assert s.children.Keys == n.children.Keys;
    assert forall k | k in n.children :: s.children[k] == n.children[k];
  }

  // The manifest is the one a publication of `g` builds, of whatever members and whenever.
  ghost predicate Describes(m: Manifest, g: Graph) {
    m == BuildManifest(g, map[], m.createdAt).(digests := m.digests)
  }

  // ... but for the sources and the rendering, which move with the graph.
  ghost predicate SameProduction(m: Manifest, g: Graph) {
    Describes(m, g.(sourceIds := m.sourceIds, renderHash := m.renderHash))
  }

  lemma MatchingMeans(m: Manifest, g: Graph)
    ensures MatchesCurrent(m, g) <==> Describes(m, g)
    ensures MatchesPrior(m, g) <==> SameProduction(m, g)
  {
  }

  // A set of some members: them, as files, and the manifest with their digests.
  ghost predicate IsSet(kind: Kind, entity: string, n: Node, m: Manifest) {
    && m.kind == kind && m.entity == entity
    && exists members: map<string, Data> ::
         && members.Keys == m.digests.Keys == MemberNames(kind) && n == SetOf(members, m)
         && forall k | k in members :: m.digests[k] == Sha256(members[k])
  }

  // Inspection finds exactly the sets.
  lemma InspectMeans(kind: Kind, entity: string, n: Node, m: Manifest)
    ensures Inspect(kind, entity, n) == Some(m) <==> IsSet(kind, entity, n, m)
  {
    if Inspect(kind, entity, n) == Some(m) {
      CompleteSetIsItsManifest(kind, entity, n);
      var members := map k | k in m.digests :: m.digests[k].of;
      assert members.Keys == m.digests.Keys && n == SetOf(members, m);
    }
    if IsSet(kind, entity, n, m) {
      var members: map<string, Data> :|
        && members.Keys == m.digests.Keys == MemberNames(kind) && n == SetOf(members, m)
        && forall k | k in members :: m.digests[k] == Sha256(members[k]);
      assert n.children.Keys == members.Keys + {MANIFEST};
    }
  }

  // The names in a complete set.
  lemma CompleteSetNames(kind: Kind, entity: string, n: Node)
    requires CompleteSet(kind, entity, n)
    ensures n.Folder? && n.children["manifest.json"].File? && n.children["manifest.json"].data.ManifestText?
    ensures n.children.Keys == if kind == Resume
      then {"bullet_pack.md", "evidence_map.json", "verification_report.json", "manifest.json"}
      else {"report.md", "report.html", "self_claims.json", "evidence_map.json", "manifest.json"}
  {
  }

  lemma BuiltSetIsComplete(g: Graph, members: map<string, Data>, createdAt: int)
    requires members.Keys == MemberNames(g.kind)
    ensures var m := BuildManifest(g, members, createdAt);
            Inspect(g.kind, g.entity, SetOf(members, m)) == Some(m) && MatchesCurrent(m, g)
  {
    var m := BuildManifest(g, members, createdAt);
    assert SetOf(members, m).children.Keys == MemberNames(g.kind) + {MANIFEST};
  }
}
