// The relational closure the export loaders read, and the maps built from it.
module ExportGraph {
  import opened Basics
  import opened Ordering
  import opened EvidenceMap

  // Stored ID lists are duplicate-free and their order is never read, so they
  // are sets here. Hydration has checked that counter facts are source facts.
  datatype Claim = Claim(id: Id, facts: set<Id>, counter: set<Id>, supported: bool)

  datatype Bullet = Bullet(id: Id, claims: set<Id>, facts: set<Id>, logs: set<Id>, supported: bool)

  datatype Source = Source(fact: Id, item: Id, direct: bool)

  // Facts map to "is current", evidence to its log, logs to what they correct.
  datatype Tables = Tables(
    facts: map<Id, bool>, sources: set<Source>, evidence: map<Id, Id>, logs: map<Id, Option<Id>>)

  datatype Fact = Fact(id: Id, evidence: set<Id>, logs: set<Id>)

  datatype Graph = Graph(facts: seq<Fact>, evidence: seq<EvidenceLink>, logs: seq<Id>)

  datatype Failure =
    | BranchBulletSetEmpty | BulletLogClosureMismatch | BulletExportBlocked | DirectChainMissing | ClaimNotMember
    | FactMissing | FactSuperseded | FactHydration | EvidenceMissing | RawLogMissing | SourceSelectionInvalid
    | SnapshotClaimSetEmpty | AnchorFactNotCurrent | AnchorChainMissing

  datatype Loaded<T> = Ok(value: T) | Refused(failure: Failure)

  // ---- Relational meaning of the helpers ----

  // `bullet_log_closure`: the logs of all stored evidence of the facts.
  function LogClosure(t: Tables, facts: set<Id>): set<Id> {
    set s | s in t.sources && s.fact in facts && s.item in t.evidence :: t.evidence[s.item]
  }

  predicate Displaced(t: Tables, log: Id) {
    exists c | c in t.logs :: t.logs[c] == Some(log)
  }

  // One direct source of the fact ends in a retained, undisplaced log.
  predicate DirectRetained(t: Tables, fact: Id) {
    exists s | s in t.sources ::
      && s.fact == fact && s.direct && s.item in t.evidence && t.evidence[s.item] in t.logs
      && !Displaced(t, t.evidence[s.item])
  }

  // Hydration joins the sources with the evidence table: some direct source and
  // no item twice, over the joined rows only.
  predicate Hydrates(t: Tables, fact: Id) {
    && (exists s | s in t.sources :: s.fact == fact && s.direct && s.item in t.evidence)
    && (forall s, u | s in t.sources && u in t.sources ::
          s.fact == u.fact == fact && s.item == u.item && s.item in t.evidence ==> s == u)
  }

  function HydratedItems(t: Tables, fact: Id): set<Id> {
    set s | s in t.sources && s.fact == fact && s.item in t.evidence :: s.item
  }

  // What every fact of the closure has to satisfy.
  predicate FactLoads(t: Tables, fact: Id, selectable: Id -> bool) {
    && fact in t.facts && t.facts[fact] && Hydrates(t, fact)
    && (forall s | s in t.sources && s.fact == fact :: s.item in t.evidence && t.evidence[s.item] in t.logs)
    && selectable(fact)
  }

  ghost predicate FactsLoad(t: Tables, facts: set<Id>, selectable: Id -> bool) {
    forall f | f in facts :: FactLoads(t, f, selectable)
  }

  function LoadedFact(t: Tables, fact: Id): Fact {
    Fact(fact, HydratedItems(t, fact), LogClosure(t, {fact}))
  }

  function ItemsOf(t: Tables, facts: set<Id>): set<Id> {
    set s | s in t.sources && s.fact in facts :: s.item
  }

  function RecordsOf(t: Tables, ids: seq<Id>): seq<Fact> {
    seq(|ids|, i requires 0 <= i < |ids| => LoadedFact(t, ids[i]))
  }

  function LinksOf(t: Tables, items: seq<Id>): seq<EvidenceLink> {
    seq(|items|, i requires 0 <= i < |items| =>
      EvidenceLink(items[i], if items[i] in t.evidence then t.evidence[items[i]] else []))
  }

  // Every fact of the set, every evidence item of those facts, every log of that evidence.
  function LoadedGraph(t: Tables, facts: set<Id>): Graph {
    Graph(RecordsOf(t, Sorted(facts)), LinksOf(t, Sorted(ItemsOf(t, facts))), Sorted(LogClosure(t, facts)))
  }

  // ---- The fact closure both loaders share line by line ----

  function SourceRows(t: Tables, facts: set<Id>): set<Source> {
    set s | s in t.sources && s.fact in facts
  }

  method LoadRecords(t: Tables, facts: set<Id>) returns (r: Loaded<seq<Fact>>, rows: set<Source>)
    ensures r.Ok? <==> forall f | f in facts :: f in t.facts && t.facts[f] && Hydrates(t, f)
    ensures r.Ok? ==> rows == SourceRows(t, facts)
    ensures r == Refused(FactMissing) ==> exists f :: f in facts && f !in t.facts
    ensures r == Refused(FactHydration) ==> exists f :: f in facts && f in t.facts && !Hydrates(t, f)
    ensures r == Refused(FactSuperseded) ==> exists f :: f in facts && f in t.facts && Hydrates(t, f) && !t.facts[f]
    ensures r.Refused? ==> r.failure == FactMissing || r.failure == FactHydration || r.failure == FactSuperseded
    ensures r.Ok? ==> r.value == RecordsOf(t, Sorted(facts))
  {
    var ids := Sorted(facts);
    var records: seq<Fact> := [];
    rows := {};
    for i := 0 to |ids|
      invariant forall f | f in ids[..i] :: f in t.facts && t.facts[f] && Hydrates(t, f)
      invariant rows == set s | s in t.sources && s.fact in ids[..i]
      invariant records == RecordsOf(t, ids[..i])
    {
      var f := ids[i];
      assert ids[..i + 1] == ids[..i] + [f] && f in Elements(ids);
      if f !in t.facts { return Refused(FactMissing), {}; }
      if !Hydrates(t, f) { return Refused(FactHydration), {}; }
      if !t.facts[f] { return Refused(FactSuperseded), {}; }
      rows := rows + set s | s in t.sources && s.fact == f;
      records := records + [LoadedFact(t, f)];
    }
    assert ids[..|ids|] == ids;
    forall f | f in facts ensures f in t.facts && t.facts[f] && Hydrates(t, f) { assert f in Elements(ids); }
    assert forall f :: f in ids <==> f in Elements(ids);
    r := Ok(records);
  }

  method LoadEvidence(t: Tables, rows: set<Source>) returns (r: Loaded<seq<EvidenceLink>>)
    ensures r.Ok? <==> forall s | s in rows :: s.item in t.evidence
    ensures r.Ok? ==> r.value == LinksOf(t, Sorted(set s | s in rows :: s.item))
    ensures r.Refused? ==> r.failure == EvidenceMissing
  {
    var items := Sorted(set s | s in rows :: s.item);
    var links: seq<EvidenceLink> := [];
    for i := 0 to |items|
      invariant forall e | e in items[..i] :: e in t.evidence
      invariant links == LinksOf(t, items[..i])
    {
      assert items[i] in Elements(items) && items[..i + 1] == items[..i] + [items[i]];
      if items[i] !in t.evidence { return Refused(EvidenceMissing); }
      links := links + [EvidenceLink(items[i], t.evidence[items[i]])];
    }
    assert items[..|items|] == items;
    forall s | s in rows ensures s.item in t.evidence { assert s.item in Elements(items); }
    r := Ok(links);
  }

  // From the sources on: evidence, logs, and the source selection of every fact.
  method LoadRest(t: Tables, facts: set<Id>, records: seq<Fact>, rows: set<Source>, selectable: Id -> bool)
    returns (r: Loaded<Graph>)
    requires rows == SourceRows(t, facts)
    requires forall f | f in facts :: f in t.facts && t.facts[f] && Hydrates(t, f)
    requires records == RecordsOf(t, Sorted(facts))
    ensures r.Ok? <==> FactsLoad(t, facts, selectable)
    ensures r.Ok? ==> r.value == LoadedGraph(t, facts)
    ensures r == Refused(EvidenceMissing) <==> exists s :: s in rows && s.item !in t.evidence
    ensures r == Refused(RawLogMissing) ==>
              exists s :: s in rows && s.item in t.evidence && t.evidence[s.item] !in t.logs
    ensures r == Refused(SourceSelectionInvalid) ==> exists f :: f in facts && !selectable(f)
    ensures r.Refused? ==>
              r.failure == EvidenceMissing || r.failure == RawLogMissing || r.failure == SourceSelectionInvalid
  {
    var links := LoadEvidence(t, rows);
    if links.Refused? { return Refused(links.failure); }
    LinkLogs(t, facts);
    var logs := set l | l in links.value :: l.log;
    if !(logs <= t.logs.Keys) { return Refused(RawLogMissing); }
    if !(forall f | f in facts :: selectable(f)) { return Refused(SourceSelectionInvalid); }
    r := Ok(Graph(records, links.value, Sorted(logs)));
  }

  lemma LinkLogs(t: Tables, facts: set<Id>)
    requires forall s | s in SourceRows(t, facts) :: s.item in t.evidence
    ensures (set l | l in LinksOf(t, Sorted(ItemsOf(t, facts))) :: l.log) == LogClosure(t, facts)
    ensures (set s | s in SourceRows(t, facts) :: s.item) == ItemsOf(t, facts)
    ensures LogClosure(t, facts) <= t.logs.Keys
            <==> forall s | s in SourceRows(t, facts) :: t.evidence[s.item] in t.logs
  {
    var items := Sorted(ItemsOf(t, facts));
    var links := LinksOf(t, items);
    forall log | log in LogClosure(t, facts) ensures exists l :: l in links && l.log == log {
      var s :| s in t.sources && s.fact in facts && s.item in t.evidence && t.evidence[s.item] == log;
      assert s.item in ItemsOf(t, facts) && s.item in Elements(items);
      var j: nat :| j < |items| && items[j] == s.item;
      assert links[j] in links;
    }
    forall l | l in links ensures l.log in LogClosure(t, facts) {
      var j: nat :| j < |links| && links[j] == l;
      assert items[j] in Elements(items);
    }
    forall s | s in SourceRows(t, facts) ensures t.evidence[s.item] in LogClosure(t, facts) {}
  }

  // ---- What a loaded graph rests on, read off the tables row by row ----

  // Some fact has a direct source in a log that is kept and that no log corrects.
  ghost predicate Grounded(t: Tables, facts: set<Id>) {
    exists s ::
      && s in t.sources && s.fact in facts && s.direct && s.item in t.evidence && t.evidence[s.item] in t.logs
      && forall c | c in t.logs :: t.logs[c] != Some(t.evidence[s.item])
  }

  // A current fact with a direct source, joined to each of its evidence items once.
  ghost predicate CurrentFact(t: Tables, f: Id) {
    && f in t.facts && t.facts[f]
    && (exists s :: s in t.sources && s.fact == f && s.direct && s.item in t.evidence)
    && forall s, u | s in t.sources && u in t.sources && s.fact == u.fact == f && s.item == u.item
         :: s.item in t.evidence ==> s == u
  }

  // All its evidence is stored, and the log of each item.
  ghost predicate Backed(t: Tables, f: Id) {
    forall s | s in t.sources && s.fact == f :: s.item in t.evidence && t.evidence[s.item] in t.logs
  }

  // A log that some stored evidence of these facts comes from.
  ghost predicate ComesFrom(t: Tables, facts: set<Id>, log: Id) {
    exists s :: s in t.sources && s.fact in facts && s.item in t.evidence && t.evidence[s.item] == log
  }

  function RecordIds(records: seq<Fact>): seq<Id> { seq(|records|, i requires 0 <= i < |records| => records[i].id) }

  // The records are those of the facts asked for, with all their evidence and its logs.
  ghost predicate FactsListed(t: Tables, asked: Id -> bool, records: seq<Fact>) {
    && Ascending(RecordIds(records)) && (forall f :: f in RecordIds(records) <==> asked(f))
    && forall x | x in records ::
         && (forall e :: e in x.evidence <==> exists s :: s in t.sources && s.fact == x.id && s.item == e)
         && forall log :: log in x.logs <==> ComesFrom(t, {x.id}, log)
  }

  // The links are those of their evidence.
  ghost predicate EvidenceListed(t: Tables, asked: Id -> bool, links: seq<EvidenceLink>) {
    && Ascending(EvidenceIds(links))
    && (forall e :: e in EvidenceIds(links) <==> exists s :: s in t.sources && asked(s.fact) && s.item == e)
    && forall l | l in links :: l.item in t.evidence && l.log == t.evidence[l.item]
  }

  // The rows of the graph, each list in ID order.
  ghost predicate IsClosure(t: Tables, asked: Id -> bool, g: Graph) {
    && FactsListed(t, asked, g.facts) && EvidenceListed(t, asked, g.evidence)
    && Ascending(g.logs) && forall log :: log in g.logs <==> exists l :: l in g.evidence && l.log == log
  }

  lemma ChainIsGrounded(t: Tables, facts: set<Id>)
    ensures ChainHolds(t, facts) <==> Grounded(t, facts)
  {
    if s :| && s in t.sources && s.fact in facts && s.direct && s.item in t.evidence && t.evidence[s.item] in t.logs
            && forall c | c in t.logs :: t.logs[c] != Some(t.evidence[s.item])
    {
      assert DirectRetained(t, s.fact);
    }
  }

  lemma LoadedIsIntact(t: Tables, f: Id, selectable: Id -> bool)
    ensures FactLoads(t, f, selectable) <==> CurrentFact(t, f) && Backed(t, f) && selectable(f)
    ensures f in t.facts && Hydrates(t, f) && t.facts[f] <==> CurrentFact(t, f)
  {
  }

  lemma ClosureIsComesFrom(t: Tables, facts: set<Id>)
    ensures forall log :: log in LogClosure(t, facts) <==> ComesFrom(t, facts, log)
  {
  }

  // The graph of a set of facts that load.
  lemma LoadedIsClosure(t: Tables, facts: set<Id>, asked: Id -> bool, selectable: Id -> bool)
    requires FactsLoad(t, facts, selectable) && forall f :: f in facts <==> asked(f)
    ensures IsClosure(t, asked, LoadedGraph(t, facts))
  {
    RecordsListed(t, facts, asked, selectable);
    LinksListed(t, facts, asked, selectable);
    assert forall s | s in SourceRows(t, facts) :: s.item in t.evidence by {
      forall s | s in SourceRows(t, facts) ensures s.item in t.evidence { assert FactLoads(t, s.fact, selectable); }
    }
    LinkLogs(t, facts);
    LogsListed(LinksOf(t, Sorted(ItemsOf(t, facts))), LogClosure(t, facts));
  }

  lemma LogsListed(links: seq<EvidenceLink>, logs: set<Id>)
    requires (set l | l in links :: l.log) == logs
    ensures forall log :: log in Sorted(logs) <==> exists l :: l in links && l.log == log
  {
    forall log ensures log in Sorted(logs) <==> exists l :: l in links && l.log == log {
      assert log in Sorted(logs) <==> log in Elements(Sorted(logs));
    }
  }

  lemma RecordsListed(t: Tables, facts: set<Id>, asked: Id -> bool, selectable: Id -> bool)
    requires FactsLoad(t, facts, selectable) && forall f :: f in facts <==> asked(f)
    ensures FactsListed(t, asked, RecordsOf(t, Sorted(facts)))
  {
    var ids, records := Sorted(facts), RecordsOf(t, Sorted(facts));
    assert RecordIds(records) == ids;
    forall f ensures f in ids <==> asked(f) { assert f in ids <==> f in Elements(ids); }
    forall x | x in records
      ensures forall e :: e in x.evidence <==> exists s :: s in t.sources && s.fact == x.id && s.item == e
      ensures forall log :: log in x.logs <==> ComesFrom(t, {x.id}, log)
    {
      var i: nat :| i < |records| && records[i] == x;
      assert ids[i] in ids && FactLoads(t, x.id, selectable) && x == LoadedFact(t, x.id);
      ClosureIsComesFrom(t, {x.id});
    }
  }

  lemma LinksListed(t: Tables, facts: set<Id>, asked: Id -> bool, selectable: Id -> bool)
    requires FactsLoad(t, facts, selectable) && forall f :: f in facts <==> asked(f)
    ensures EvidenceListed(t, asked, LinksOf(t, Sorted(ItemsOf(t, facts))))
  {
    var items, links := Sorted(ItemsOf(t, facts)), LinksOf(t, Sorted(ItemsOf(t, facts)));
    assert EvidenceIds(links) == items;
    forall e ensures e in items <==> exists s :: s in t.sources && asked(s.fact) && s.item == e {
      assert e in items <==> e in Elements(items);
    }
    forall l | l in links ensures l.item in t.evidence && l.log == t.evidence[l.item] {
      var i: nat :| i < |links| && links[i] == l;
      assert items[i] in items;
      var s :| s in t.sources && asked(s.fact) && s.item == items[i];
      assert FactLoads(t, s.fact, selectable);
    }
  }

  // ---- The branch loader ----

  type Members = m: map<Id, Claim> | forall c | c in m :: m[c].id == c && m[c].counter <= m[c].facts

  predicate ChainHolds(t: Tables, facts: set<Id>) {
    exists f | f in facts :: DirectRetained(t, f)
  }

  function CitedIds(bullets: seq<Bullet>): set<Id> {
    set b, c | b in bullets && c in b.claims :: c
  }

  function OwnFacts(bullets: seq<Bullet>): set<Id> {
    set b, f | b in bullets && f in b.facts :: f
  }

  function FactsOfClaims(members: Members, claims: set<Id>): set<Id> {
    set c, f | c in claims && c in members && f in members[c].facts :: f
  }

  function PackFacts(bullets: seq<Bullet>, members: Members): set<Id> {
    OwnFacts(bullets) + FactsOfClaims(members, CitedIds(bullets))
  }

  // Every member of the anchor snapshot, cited or not, rests on current facts
  // and reaches a retained record of its own.
  ghost predicate AnchorHolds(t: Tables, members: Members) {
    && members != map[]
    && (forall c, f | c in members && f in members[c].facts :: f in t.facts && Hydrates(t, f) && t.facts[f])
    && forall c | c in members :: ChainHolds(t, members[c].facts)
  }

  // Everything a bullet pack needs of the stored rows; a status gate is read
  // only off a closure and an anchor that are intact.
  ghost predicate Exportable(t: Tables, bullets: seq<Bullet>, members: Members, eligible: bool,
                             selectable: Id -> bool)
  {
    && bullets != [] && AnchorHolds(t, members) && eligible
    && (forall b | b in bullets :: b.logs == LogClosure(t, b.facts) && b.supported && ChainHolds(t, b.facts))
    && (forall c | c in CitedIds(bullets) :: c in members && members[c].supported && ChainHolds(t, members[c].facts))
    && FactsLoad(t, PackFacts(bullets, members), selectable)
  }

  // A fact a bullet names itself or through a member it cites.
  ghost predicate Reaches(bullets: seq<Bullet>, members: Members, f: Id) {
    exists b :: b in bullets && (f in b.facts || exists c :: c in b.claims && c in members && f in members[c].facts)
  }

  // The same, said of the rows themselves.
  ghost predicate PackSound(t: Tables, bullets: seq<Bullet>, members: Members, eligible: bool, selectable: Id -> bool) {
    && bullets != [] && members != map[] && eligible
    && (forall c, f | c in members && f in members[c].facts :: CurrentFact(t, f))
    && (forall c | c in members :: Grounded(t, members[c].facts))
    && (forall b, log | b in bullets :: log in b.logs <==> ComesFrom(t, b.facts, log))
    && (forall b | b in bullets :: b.supported && Grounded(t, b.facts))
    && (forall b, c | b in bullets && c in b.claims ::
          c in members && members[c].supported && Grounded(t, members[c].facts))
    && forall f | Reaches(bullets, members, f) :: CurrentFact(t, f) && Backed(t, f) && selectable(f)
  }

  lemma ReachedIsPackFact(bullets: seq<Bullet>, members: Members, f: Id)
    ensures f in PackFacts(bullets, members) <==> Reaches(bullets, members, f)
  {
    if f in FactsOfClaims(members, CitedIds(bullets)) {
      var c :| c in CitedIds(bullets) && c in members && f in members[c].facts;
      var b :| b in bullets && c in b.claims;
    }
    if b :| b in bullets && exists c :: c in b.claims && c in members && f in members[c].facts {
      var c :| c in b.claims && c in members && f in members[c].facts;
      assert c in CitedIds(bullets);
    }
  }

  lemma ExportableIsSound(t: Tables, bullets: seq<Bullet>, members: Members, eligible: bool, selectable: Id -> bool)
    ensures Exportable(t, bullets, members, eligible, selectable)
            <==> PackSound(t, bullets, members, eligible, selectable)
  {
    AnchorSound(t, members);
    BulletsSound(t, bullets);
    CitedSound(t, bullets, members);
    PackFactsLoad(t, bullets, members, selectable);
  }

  lemma AnchorSound(t: Tables, members: Members)
    ensures AnchorHolds(t, members) <==>
              && members != map[] && (forall c, f | c in members && f in members[c].facts :: CurrentFact(t, f))
              && forall c | c in members :: Grounded(t, members[c].facts)
  {
    forall f ensures f in t.facts && Hydrates(t, f) && t.facts[f] <==> CurrentFact(t, f) {
      LoadedIsIntact(t, f, _ => true);
    }
    forall c | c in members ensures ChainHolds(t, members[c].facts) <==> Grounded(t, members[c].facts) {
      ChainIsGrounded(t, members[c].facts);
    }
  }

  lemma BulletsSound(t: Tables, bullets: seq<Bullet>)
    ensures (forall b | b in bullets :: b.logs == LogClosure(t, b.facts) && b.supported && ChainHolds(t, b.facts)) <==>
              && (forall b, log | b in bullets :: log in b.logs <==> ComesFrom(t, b.facts, log))
              && forall b | b in bullets :: b.supported && Grounded(t, b.facts)
  {
    forall b | b in bullets
      ensures b.logs == LogClosure(t, b.facts) <==> forall log :: log in b.logs <==> ComesFrom(t, b.facts, log)
      ensures ChainHolds(t, b.facts) <==> Grounded(t, b.facts)
    {
      ClosureIsComesFrom(t, b.facts);
      ChainIsGrounded(t, b.facts);
    }
  }

  lemma CitedSound(t: Tables, bullets: seq<Bullet>, members: Members)
    ensures (forall c | c in CitedIds(bullets) ::
               c in members && members[c].supported && ChainHolds(t, members[c].facts))
            <==> forall b, c | b in bullets && c in b.claims ::
                   c in members && members[c].supported && Grounded(t, members[c].facts)
  {
    forall c | c in members ensures ChainHolds(t, members[c].facts) <==> Grounded(t, members[c].facts) {
      ChainIsGrounded(t, members[c].facts);
    }
  }

  lemma PackFactsLoad(t: Tables, bullets: seq<Bullet>, members: Members, selectable: Id -> bool)
    ensures FactsLoad(t, PackFacts(bullets, members), selectable)
            <==> forall f | Reaches(bullets, members, f) :: CurrentFact(t, f) && Backed(t, f) && selectable(f)
  {
    forall f
      ensures f in PackFacts(bullets, members) <==> Reaches(bullets, members, f)
      ensures FactLoads(t, f, selectable) <==> CurrentFact(t, f) && Backed(t, f) && selectable(f)
    {
      ReachedIsPackFact(bullets, members, f);
      LoadedIsIntact(t, f, selectable);
    }
  }

  datatype PackGraph = PackGraph(bullets: seq<Bullet>, claims: seq<Claim>, graph: Graph)

  function ClaimsOf(members: Members, ids: seq<Id>): seq<Claim>
    requires forall c | c in ids :: c in members
  {
    seq(|ids|, i requires 0 <= i < |ids| => members[ids[i]])
  }

  method CheckClosures(t: Tables, bullets: seq<Bullet>) returns (failure: Option<Failure>)
    ensures failure.None? <==> forall b | b in bullets :: b.logs == LogClosure(t, b.facts)
    ensures failure.Some? ==> failure.value == BulletLogClosureMismatch
  {
    for i := 0 to |bullets|
      invariant forall b | b in bullets[..i] :: b.logs == LogClosure(t, b.facts)
    {
      if bullets[i].logs != LogClosure(t, bullets[i].facts) { return Some(BulletLogClosureMismatch); }
    }
    failure := None;
  }

  method CheckAnchor(t: Tables, members: Members) returns (failure: Option<Failure>)
    ensures failure.None? <==> AnchorHolds(t, members)
    ensures failure == Some(SnapshotClaimSetEmpty) <==> members == map[]
    ensures failure == Some(AnchorChainMissing) ==>
      forall c, f | c in members && f in members[c].facts :: f in t.facts && Hydrates(t, f) && t.facts[f]
    ensures failure.Some? ==>
      || failure.value == SnapshotClaimSetEmpty || failure.value == AnchorFactNotCurrent
      || failure.value == AnchorChainMissing
  {
    if members == map[] { return Some(SnapshotClaimSetEmpty); }
    var facts := set c, f | c in members && f in members[c].facts :: f;
    var records, rows := LoadRecords(t, facts);
    if records.Refused? {
      var f :| f in facts && !(f in t.facts && t.facts[f] && Hydrates(t, f));
      return Some(AnchorFactNotCurrent);
    }
    if !(forall c | c in members :: ChainHolds(t, members[c].facts)) { return Some(AnchorChainMissing); }
    failure := None;
  }

  method CheckGates(t: Tables, bullets: seq<Bullet>) returns (failure: Option<Failure>)
    ensures failure.None? <==> forall b | b in bullets :: b.supported && ChainHolds(t, b.facts)
    ensures failure.Some? ==> exists i | 0 <= i < |bullets| ::
      && (forall b | b in bullets[..i] :: b.supported && ChainHolds(t, b.facts))
      && failure.value == (if !bullets[i].supported then BulletExportBlocked else DirectChainMissing)
  {
    for i := 0 to |bullets|
      invariant forall b | b in bullets[..i] :: b.supported && ChainHolds(t, b.facts)
    {
      if !bullets[i].supported { return Some(BulletExportBlocked); }
      if !ChainHolds(t, bullets[i].facts) { return Some(DirectChainMissing); }
    }
    failure := None;
  }

  method LoadClaims(t: Tables, cited: set<Id>, members: Members) returns (r: Loaded<seq<Claim>>)
    ensures r.Ok? <==> forall c | c in cited :: c in members && members[c].supported && ChainHolds(t, members[c].facts)
    ensures r.Ok? ==> (forall c | c in Sorted(cited) :: c in members) && r.value == ClaimsOf(members, Sorted(cited))
    ensures r == Refused(ClaimNotMember) ==> exists c :: c in cited && c !in members
    ensures r == Refused(BulletExportBlocked) ==> exists c :: c in cited && c in members && !members[c].supported
    ensures r == Refused(DirectChainMissing) ==>
              exists c :: c in cited && c in members && !ChainHolds(t, members[c].facts)
    ensures r.Refused? ==>
              r.failure == ClaimNotMember || r.failure == BulletExportBlocked || r.failure == DirectChainMissing
  {
    var ids := Sorted(cited);
    var claims: seq<Claim> := [];
    for i := 0 to |ids|
      invariant forall c | c in ids[..i] :: c in members && members[c].supported && ChainHolds(t, members[c].facts)
      invariant claims == ClaimsOf(members, ids[..i])
    {
      var c := ids[i];
      assert c in Elements(ids) && ids[..i + 1] == ids[..i] + [c];
      if c !in members { return Refused(ClaimNotMember); }
      if !members[c].supported { return Refused(BulletExportBlocked); }
      if !ChainHolds(t, members[c].facts) { return Refused(DirectChainMissing); }
      claims := claims + [members[c]];
    }
    assert ids[..|ids|] == ids;
    assert forall c :: c in Elements(ids) <==> c in ids;
    r := Ok(claims);
  }

  method LoadPack(t: Tables, bullets: seq<Bullet>, members: Members, eligible: bool, selectable: Id -> bool)
    returns (r: Loaded<PackGraph>)
    ensures r.Ok? <==> Exportable(t, bullets, members, eligible, selectable)
    ensures r.Ok? <==> PackSound(t, bullets, members, eligible, selectable)
    ensures r.Ok? ==> PackLoaded(t, bullets, members, r.value)
    ensures r.Ok? ==>
              (forall c | c in Sorted(CitedIds(bullets)) :: c in members) && r.value == LoadedPack(t, bullets, members)
    ensures r == Refused(BranchBulletSetEmpty) <==> bullets == []
    ensures r == Refused(BulletExportBlocked) ==>
      (forall b | b in bullets :: b.logs == LogClosure(t, b.facts)) && AnchorHolds(t, members)
  {
    ExportableIsSound(t, bullets, members, eligible, selectable);
    if bullets == [] { return Refused(BranchBulletSetEmpty); }
    var failure := CheckClosures(t, bullets);
    if failure.Some? { return Refused(failure.value); }
    failure := CheckAnchor(t, members);
    if failure.Some? { return Refused(failure.value); }
    if !eligible { return Refused(BulletExportBlocked); }
    failure := CheckGates(t, bullets);
    if failure.Some? { return Refused(failure.value); }
    r := LoadCited(t, bullets, members, selectable);
    if r.Ok? { PackIsLoaded(t, bullets, members, selectable); }
  }

  // The bullets, the members they cite in ID order, and the closure of what they reach.
  ghost predicate PackLoaded(t: Tables, bullets: seq<Bullet>, members: Members, pack: PackGraph) {
    && pack.bullets == bullets && ClaimsListed(c => exists b :: b in bullets && c in b.claims, members, pack.claims)
    && IsClosure(t, f => Reaches(bullets, members, f), pack.graph)
  }

  ghost predicate ClaimsListed(asked: Id -> bool, members: Members, claims: seq<Claim>) {
    && Ascending(ClaimedIds(claims)) && (forall c :: c in ClaimedIds(claims) <==> asked(c))
    && forall x | x in claims :: x.id in members && x == members[x.id]
  }

  function ClaimedIds(claims: seq<Claim>): seq<Id> { seq(|claims|, i requires 0 <= i < |claims| => claims[i].id) }

  lemma ClaimsAreListed(ids: set<Id>, asked: Id -> bool, members: Members)
    requires (forall c | c in Sorted(ids) :: c in members) && forall c :: c in ids <==> asked(c)
    ensures ClaimsListed(asked, members, ClaimsOf(members, Sorted(ids)))
  {
    assert ClaimedIds(ClaimsOf(members, Sorted(ids))) == Sorted(ids);
    forall c ensures c in Sorted(ids) <==> asked(c) { assert c in Sorted(ids) <==> c in Elements(Sorted(ids)); }
  }

  lemma PackIsLoaded(t: Tables, bullets: seq<Bullet>, members: Members, selectable: Id -> bool)
    requires forall c | c in Sorted(CitedIds(bullets)) :: c in members
    requires FactsLoad(t, PackFacts(bullets, members), selectable)
    ensures PackLoaded(t, bullets, members, LoadedPack(t, bullets, members))
  {
    ClaimsAreListed(CitedIds(bullets), c => exists b :: b in bullets && c in b.claims, members);
    forall f ensures f in PackFacts(bullets, members) <==> Reaches(bullets, members, f) {
      ReachedIsPackFact(bullets, members, f);
    }
    LoadedIsClosure(t, PackFacts(bullets, members), f => Reaches(bullets, members, f), selectable);
  }

  // The cited members and the fact closure of a pack whose bullets pass their gates.
  method LoadCited(t: Tables, bullets: seq<Bullet>, members: Members, selectable: Id -> bool)
    returns (r: Loaded<PackGraph>)
    ensures r.Ok? <==>
            && (forall c | c in CitedIds(bullets) ::
                  c in members && members[c].supported && ChainHolds(t, members[c].facts))
            && FactsLoad(t, PackFacts(bullets, members), selectable)
    ensures r.Ok? ==>
              (forall c | c in Sorted(CitedIds(bullets)) :: c in members) && r.value == LoadedPack(t, bullets, members)
    ensures r != Refused(BranchBulletSetEmpty)
  {
    var claims := LoadClaims(t, CitedIds(bullets), members);
    if claims.Refused? { return Refused(claims.failure); }
    var facts := PackFacts(bullets, members);
    var records, rows := LoadRecords(t, facts);
    if records.Refused? { return Refused(records.failure); }
    var graph := LoadRest(t, facts, records.value, rows, selectable);
    if graph.Refused? { return Refused(graph.failure); }
    r := Ok(PackGraph(bullets, claims.value, graph.value));
  }

  function LoadedPack(t: Tables, bullets: seq<Bullet>, members: Members): PackGraph
    requires forall c | c in Sorted(CitedIds(bullets)) :: c in members
  {
    PackGraph(bullets, ClaimsOf(members, Sorted(CitedIds(bullets))), LoadedGraph(t, PackFacts(bullets, members)))
  }

  // ---- The assessment loader ----

  function AllFacts(members: Members): set<Id> {
    set c, f | c in members && f in members[c].facts :: f
  }

  ghost predicate HasDirect(t: Tables, c: Claim) {
    exists s :: s in t.sources && s.fact in c.facts && s.direct
  }

  // Everything an assessment needs of the stored rows.
  ghost predicate Assessable(t: Tables, members: Members, selectable: Id -> bool) {
    && members != map[]
    && (forall c | c in members :: HasDirect(t, members[c]))
    && FactsLoad(t, AllFacts(members), selectable)
  }

  datatype AssessmentGraph = AssessmentGraph(claims: seq<Claim>, graph: Graph)

  function LoadedAssessment(t: Tables, members: Members): AssessmentGraph
    requires forall c | c in Sorted(members.Keys) :: c in members
  {
    AssessmentGraph(ClaimsOf(members, Sorted(members.Keys)), LoadedGraph(t, AllFacts(members)))
  }

  method LoadAssessment(t: Tables, members: Members, selectable: Id -> bool) returns (r: Loaded<AssessmentGraph>)
    ensures forall c :: c in Sorted(members.Keys) <==> c in members
    ensures r.Ok? <==> Assessable(t, members, selectable)
    ensures r.Ok? <==> AssessmentSound(t, members, selectable)
    ensures r.Ok? ==> r.value == LoadedAssessment(t, members) && AssessmentLoaded(t, members, r.value)
  {
    AssessableIsSound(t, members, selectable);
    var ids := Sorted(members.Keys);
    assert forall c :: c in Elements(ids) <==> c in ids;
    if ids == [] {
      assert members.Keys == {} && members == map[];
      return Refused(SnapshotClaimSetEmpty);
    }
    assert ids[0] in members && members != map[];
    var records, rows := LoadRecords(t, AllFacts(members));
    if records.Refused? { return Refused(records.failure); }
    var chained := CheckDirect(t, members, ids, rows);
    if !chained { return Refused(DirectChainMissing); }
    var graph := LoadRest(t, AllFacts(members), records.value, rows, selectable);
    if graph.Refused? { return Refused(graph.failure); }
    r := Ok(AssessmentGraph(ClaimsOf(members, ids), graph.value));
    AssessmentIsLoaded(t, members, selectable);
  }

  // A fact of some member.
  ghost predicate Supports(members: Members, f: Id) {
    exists c :: c in members && f in members[c].facts
  }

  ghost predicate AssessmentSound(t: Tables, members: Members, selectable: Id -> bool) {
    && members != map[]
    && (forall c | c in members :: exists s :: s in t.sources && s.fact in members[c].facts && s.direct)
    && forall f | Supports(members, f) :: CurrentFact(t, f) && Backed(t, f) && selectable(f)
  }

  // All members in ID order and the closure of their facts.
  ghost predicate AssessmentLoaded(t: Tables, members: Members, a: AssessmentGraph) {
    ClaimsListed(c => c in members, members, a.claims) && IsClosure(t, f => Supports(members, f), a.graph)
  }

  lemma AssessableIsSound(t: Tables, members: Members, selectable: Id -> bool)
    ensures Assessable(t, members, selectable) <==> AssessmentSound(t, members, selectable)
  {
    forall f
      ensures f in AllFacts(members) <==> Supports(members, f)
      ensures FactLoads(t, f, selectable) <==> CurrentFact(t, f) && Backed(t, f) && selectable(f)
    {
      LoadedIsIntact(t, f, selectable);
    }
    forall c | c in members
      ensures HasDirect(t, members[c]) <==> exists s :: s in t.sources && s.fact in members[c].facts && s.direct
    {
    }
  }

  lemma AssessmentIsLoaded(t: Tables, members: Members, selectable: Id -> bool)
    requires FactsLoad(t, AllFacts(members), selectable) && forall c :: c in Sorted(members.Keys) <==> c in members
    ensures AssessmentLoaded(t, members, LoadedAssessment(t, members))
  {
    ClaimsAreListed(members.Keys, c => c in members, members);
    forall f ensures f in AllFacts(members) <==> Supports(members, f) {
    }
    LoadedIsClosure(t, AllFacts(members), f => Supports(members, f), selectable);
  }

  // Every claim reaches a direct source through its own facts.
  method CheckDirect(t: Tables, members: Members, ids: seq<Id>, rows: set<Source>) returns (ok: bool)
    requires rows == SourceRows(t, AllFacts(members)) && forall c :: c in ids <==> c in members
    ensures ok <==> forall c | c in members :: HasDirect(t, members[c])
  {
    var direct := set s | s in rows && s.direct :: s.fact;
    for i := 0 to |ids|
      invariant forall c | c in ids[..i] :: HasDirect(t, members[c])
    {
      var reached := members[ids[i]].facts;
      assert ids[i] in ids && ids[..i + 1] == ids[..i] + [ids[i]];
      DirectFacts(t, members, ids[i], rows, direct);
      if reached == {} || reached * direct == {} { return false; }
    }
    assert ids[..|ids|] == ids;
    return true;
  }

  lemma DirectFacts(t: Tables, members: Members, c: Id, rows: set<Source>, direct: set<Id>)
    requires c in members && rows == SourceRows(t, AllFacts(members))
    requires direct == set s | s in rows && s.direct :: s.fact
    ensures HasDirect(t, members[c]) <==> members[c].facts * direct != {}
  {
    if HasDirect(t, members[c]) {
      var s :| s in t.sources && s.fact in members[c].facts && s.direct;
      assert s in rows && s.fact in members[c].facts * direct;
    }
    if members[c].facts * direct != {} {
      var f :| f in members[c].facts * direct;
    }
  }
}
