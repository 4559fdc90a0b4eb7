// The loaders agree with the document validators.
module Agreement {
  import opened Ordering
  import opened EvidenceMap
  import opened ExportGraph

  // ---- The document builders ----

  function LinkOfClaim(c: Claim): ClaimLink {
    ClaimLink(c.id, Sorted(c.facts), Sorted(c.counter))
  }

  function LinkOfFact(f: Fact): FactLink {
    FactLink(f.id, Sorted(f.evidence), Sorted(f.logs))
  }

  function Rendered(b: Bullet): RenderedBullet {
    RenderedBullet(b.id, Sorted(b.claims), Sorted(b.facts), Sorted(b.logs))
  }

  function Each<T, U>(s: seq<T>, f: T -> U): seq<U> {
    seq(|s|, i requires 0 <= i < |s| => f(s[i]))
  }

  function BuildPackMap(g: PackGraph): PackMap {
    PackMap(Each(g.bullets, Rendered), Each(g.claims, LinkOfClaim), Each(g.graph.facts, LinkOfFact), g.graph.evidence)
  }

  function BuildAssessmentMap(g: AssessmentGraph): AssessmentMap {
    AssessmentMap(Each(g.claims, (c: Claim) => c.id), Each(g.claims, LinkOfClaim), Each(g.graph.facts, LinkOfFact),
                  g.graph.evidence)
  }

  // ---- What the links of loaded rows are ----

  lemma SortedMembers(s: set<Id>)
    ensures forall x :: x in Sorted(s) <==> x in s
  {
    assert forall x :: x in Sorted(s) <==> x in Elements(Sorted(s));
  }

  // The fact links of a loaded graph: one per fact, over its own evidence and logs.
  lemma FactLinksOf(t: Tables, facts: set<Id>, selectable: Id -> bool)
    requires FactsLoad(t, facts, selectable)
    ensures var links := Each(LoadedGraph(t, facts).facts, LinkOfFact);
      && FactIds(links) == Sorted(facts)
      && (forall f | f in facts :: LinkOfFact(LoadedFact(t, f)) in links)
      && forall l | l in links :: l.fact in facts && l == LinkOfFact(LoadedFact(t, l.fact)) && FactLinkValid(l)
  {
    var links := Each(LoadedGraph(t, facts).facts, LinkOfFact);
    var ids := Sorted(facts);
    SortedMembers(facts);
    forall i | 0 <= i < |ids| ensures FactLinkValid(links[i]) {
      assert ids[i] in facts;
      FactGrounded(t, ids[i], selectable);
    }
    forall f | f in facts ensures LinkOfFact(LoadedFact(t, f)) in links {
      var i: nat :| i < |ids| && ids[i] == f;
      assert links[i] == LinkOfFact(LoadedFact(t, f));
    }
  }

  lemma FactGrounded(t: Tables, f: Id, selectable: Id -> bool)
    requires FactLoads(t, f, selectable)
    ensures FactLinkValid(LinkOfFact(LoadedFact(t, f)))
  {
    var s :| s in t.sources && s.fact == f && s.direct && s.item in t.evidence;
    assert s.item in HydratedItems(t, f) && t.evidence[s.item] in LogClosure(t, {f});
    NoElements(Sorted(HydratedItems(t, f)));
    NoElements(Sorted(LogClosure(t, {f})));
  }

  lemma EvidenceLinksOf(t: Tables, facts: set<Id>, selectable: Id -> bool)
    requires FactsLoad(t, facts, selectable)
    ensures var links := LoadedGraph(t, facts).evidence;
      && EvidenceIds(links) == Sorted(ItemsOf(t, facts))
      && forall e, log :: Linked(links, e, log) <==> e in ItemsOf(t, facts) && t.evidence[e] == log
  {
    var items := Sorted(ItemsOf(t, facts));
    var links := LoadedGraph(t, facts).evidence;
    SortedMembers(ItemsOf(t, facts));
    forall e, log | e in ItemsOf(t, facts) && t.evidence[e] == log ensures Linked(links, e, log) {
      var i: nat :| i < |items| && items[i] == e;
      assert links[i] == EvidenceLink(e, log);
    }
    forall e, log | Linked(links, e, log) ensures e in ItemsOf(t, facts) && t.evidence[e] == log {
      var l :| l in links && l.item == e && l.log == log;
      var i: nat :| i < |links| && links[i] == l;
      assert items[i] in ItemsOf(t, facts);
    }
  }

  // The fact and evidence half of the closure, from the stored rows.
  lemma LoadedFactsClosed(t: Tables, facts: set<Id>, selectable: Id -> bool)
    requires FactsLoad(t, facts, selectable)
    ensures FactsClosed(facts, Each(LoadedGraph(t, facts).facts, LinkOfFact), LoadedGraph(t, facts).evidence)
  {
    var links, evidence := Each(LoadedGraph(t, facts).facts, LinkOfFact), LoadedGraph(t, facts).evidence;
    FactLinksOf(t, facts, selectable);
    EvidenceLinksOf(t, facts, selectable);
    SortedMembers(facts);
    SortedMembers(ItemsOf(t, facts));
    forall l | l in links ensures forall e :: e in l.evidence <==> e in HydratedItems(t, l.fact) {
      SortedMembers(HydratedItems(t, l.fact));
    }
    forall e ensures e in EvidenceIds(evidence) <==> exists l :: l in links && e in l.evidence {
      if e in ItemsOf(t, facts) {
        var s :| s in t.sources && s.fact in facts && s.item == e;
        assert LinkOfFact(LoadedFact(t, s.fact)) in links && e in HydratedItems(t, s.fact);
      }
    }
    forall l, log | l in links ensures log in l.logs <==> LogOfFact(l, evidence, log) {
      SortedMembers(LogClosure(t, {l.fact}));
      if log in l.logs {
        var s :| s in t.sources && s.fact in {l.fact} && s.item in t.evidence && t.evidence[s.item] == log;
        assert s.item in l.evidence && Linked(evidence, s.item, log);
      }
      if LogOfFact(l, evidence, log) {
        var e :| e in l.evidence && Linked(evidence, e, log);
        assert e in HydratedItems(t, l.fact);
      }
    }
  }

  lemma ClaimLinkShape(c: Claim)
    requires c.counter <= c.facts && c.facts != {}
    ensures ClaimLinkValid(LinkOfClaim(c))
  {
    assert Elements(Sorted(c.facts)) == c.facts && Elements(Sorted(c.counter)) == c.counter;
    NoElements(Sorted(c.facts));
  }

  lemma ClaimLinksOf(members: Members, claims: set<Id>)
    requires claims <= members.Keys && forall c | c in claims :: members[c].facts != {}
    ensures forall c | c in Sorted(claims) :: c in members
    ensures var links := Each(ClaimsOf(members, Sorted(claims)), LinkOfClaim);
      && ClaimIds(links) == Sorted(claims)
      && (forall l | l in links :: ClaimLinkValid(l) && l.claim in claims && l == LinkOfClaim(members[l.claim]))
      && forall c | c in claims :: LinkOfClaim(members[c]) in links
  {
    SortedMembers(claims);
    var ids := Sorted(claims);
    var links := Each(ClaimsOf(members, ids), LinkOfClaim);
    forall l | l in links ensures ClaimLinkValid(l) && l.claim in claims && l == LinkOfClaim(members[l.claim]) {
      var i: nat :| i < |ids| && links[i] == l;
      assert ids[i] in claims && l == LinkOfClaim(members[ids[i]]);
      ClaimLinkShape(members[ids[i]]);
    }
    forall c | c in claims ensures LinkOfClaim(members[c]) in links {
      var i: nat :| i < |ids| && ids[i] == c;
      assert links[i] == LinkOfClaim(members[c]);
    }
  }

  lemma LoadedLinksValid(t: Tables, facts: set<Id>, members: Members, claims: set<Id>, selectable: Id -> bool)
    requires FactsLoad(t, facts, selectable) && claims <= members.Keys
    requires forall c | c in claims :: members[c].facts != {}
    ensures forall c | c in Sorted(claims) :: c in members
    ensures var links := Each(ClaimsOf(members, Sorted(claims)), LinkOfClaim);
      LinksValid(links, Each(LoadedGraph(t, facts).facts, LinkOfFact), LoadedGraph(t, facts).evidence)
    ensures ClaimIds(Each(ClaimsOf(members, Sorted(claims)), LinkOfClaim)) == Sorted(claims)
    ensures forall l | l in Each(ClaimsOf(members, Sorted(claims)), LinkOfClaim) ::
      l.claim in claims && l == LinkOfClaim(members[l.claim])
    ensures forall c | c in claims :: LinkOfClaim(members[c]) in Each(ClaimsOf(members, Sorted(claims)), LinkOfClaim)
  {
    ClaimLinksOf(members, claims);
    FactLinksOf(t, facts, selectable);
    EvidenceLinksOf(t, facts, selectable);
  }

  /** Every graph the assessment loader accepts builds an evidence map that the
      document's own validator accepts. */
  lemma LoadedAssessmentIsAccepted(t: Tables, members: Members, selectable: Id -> bool)
    requires Assessable(t, members, selectable)
    ensures forall c :: c in Sorted(members.Keys) <==> c in members
    ensures AssessmentAccepted(BuildAssessmentMap(LoadedAssessment(t, members)))
  {
    var facts := AllFacts(members);
    SortedMembers(members.Keys);
    LoadedLinksValid(t, facts, members, members.Keys, selectable);
    var m := BuildAssessmentMap(LoadedAssessment(t, members));
    assert m.rendered == Sorted(members.Keys);
    LoadedFactsClosed(t, facts, selectable);
    forall f ensures f in facts <==> exists l :: l in m.claims && f in l.facts {
      if f in facts {
        var c :| c in members && f in members[c].facts;
        SortedMembers(members[c].facts);
        assert LinkOfClaim(members[c]) in m.claims && f in LinkOfClaim(members[c]).facts;
      }
      if exists l :: l in m.claims && f in l.facts {
        var l :| l in m.claims && f in l.facts;
        SortedMembers(members[l.claim].facts);
      }
    }
  }

  lemma RenderedCite(t: Tables, bullets: seq<Bullet>, members: Members, eligible: bool, selectable: Id -> bool)
    requires Exportable(t, bullets, members, eligible, selectable)
    ensures forall c | c in Sorted(CitedIds(bullets)) :: c in members
    ensures var m := BuildPackMap(LoadedPack(t, bullets, members));
      && (forall c :: c in CitedIds(bullets) <==> CitedClaim(m, c))
      && (forall f :: f in OwnFacts(bullets) <==> exists r :: r in m.bullets && f in r.facts)
  {
    SortedMembers(CitedIds(bullets));
    var m := BuildPackMap(LoadedPack(t, bullets, members));
    forall b | b in bullets
      ensures Rendered(b) in m.bullets
      ensures forall x :: x in Rendered(b).claims <==> x in b.claims
      ensures forall x :: x in Rendered(b).facts <==> x in b.facts
    {
      var i: nat :| i < |bullets| && bullets[i] == b;
      assert m.bullets[i] == Rendered(b);
      SortedMembers(b.claims);
      SortedMembers(b.facts);
    }
    forall r | r in m.bullets ensures exists b :: b in bullets && r == Rendered(b) {
      var i: nat :| i < |m.bullets| && m.bullets[i] == r;
      assert bullets[i] in bullets;
    }
    forall c | c in CitedIds(bullets) ensures CitedClaim(m, c) {
      var b :| b in bullets && c in b.claims;
      assert Rendered(b) in m.bullets && c in Rendered(b).claims;
    }
    forall f | f in OwnFacts(bullets) ensures exists r :: r in m.bullets && f in r.facts {
      var b :| b in bullets && f in b.facts;
      assert Rendered(b) in m.bullets && f in Rendered(b).facts;
    }
  }

  // A bullet's stored logs are the union of its facts' link logs.
  lemma RenderedLogs(t: Tables, bullets: seq<Bullet>, members: Members, b: Bullet, eligible: bool,
                     selectable: Id -> bool)
    requires Exportable(t, bullets, members, eligible, selectable) && b in bullets
    ensures forall c | c in Sorted(CitedIds(bullets)) :: c in members
    ensures BulletValid(Rendered(b))
    ensures forall log :: log in Rendered(b).logs
              <==> LogOfBullet(BuildPackMap(LoadedPack(t, bullets, members)), Rendered(b), log)
  {
    SortedMembers(CitedIds(bullets));
    var m := BuildPackMap(LoadedPack(t, bullets, members));
    FactLinksOf(t, PackFacts(bullets, members), selectable);
    SortedMembers(b.facts);
    SortedMembers(b.logs);
    var f :| f in b.facts && DirectRetained(t, f);
    var s :| s in t.sources && s.fact == f && s.item in t.evidence;
    assert t.evidence[s.item] in LogClosure(t, b.facts);
    forall log | log in b.logs ensures LogOfBullet(m, Rendered(b), log) {
      var u :| u in t.sources && u.fact in b.facts && u.item in t.evidence && t.evidence[u.item] == log;
      var l := LinkOfFact(LoadedFact(t, u.fact));
      SortedMembers(LogClosure(t, {u.fact}));
      assert l in m.facts && l.fact in Rendered(b).facts && log in l.logs;
    }
    forall log | LogOfBullet(m, Rendered(b), log) ensures log in b.logs {
      var l :| l in m.facts && l.fact in Rendered(b).facts && log in l.logs;
      SortedMembers(LogClosure(t, {l.fact}));
    }
  }

  lemma PackReaches(t: Tables, bullets: seq<Bullet>, members: Members, eligible: bool, selectable: Id -> bool)
    requires Exportable(t, bullets, members, eligible, selectable)
    ensures forall c | c in Sorted(CitedIds(bullets)) :: c in members
    ensures var m := BuildPackMap(LoadedPack(t, bullets, members));
      forall f :: f in PackFacts(bullets, members) <==> ReachedFact(m, f)
  {
    var cited := CitedIds(bullets);
    RenderedCite(t, bullets, members, eligible, selectable);
    LoadedLinksValid(t, PackFacts(bullets, members), members, cited, selectable);
    var m := BuildPackMap(LoadedPack(t, bullets, members));
    forall f | f in FactsOfClaims(members, cited) ensures ReachedFact(m, f) {
      var c :| c in cited && c in members && f in members[c].facts;
      SortedMembers(members[c].facts);
      assert LinkOfClaim(members[c]) in m.claims;
    }
    forall l, f | l in m.claims && f in l.facts ensures f in FactsOfClaims(members, cited) {
      SortedMembers(members[l.claim].facts);
    }
  }

  lemma PackClosedBy(m: PackMap, cited: set<Id>, reached: set<Id>)
    requires forall c :: c in ClaimIds(m.claims) <==> c in cited
    requires forall c :: c in cited <==> CitedClaim(m, c)
    requires forall f :: f in reached <==> ReachedFact(m, f)
    requires FactsClosed(reached, m.facts, m.evidence)
    requires forall b, log | b in m.bullets :: log in b.logs <==> LogOfBullet(m, b, log)
    ensures PackClosed(m)
  {
  }

  lemma LoadedPackClosed(t: Tables, bullets: seq<Bullet>, members: Members, eligible: bool, selectable: Id -> bool)
    requires Exportable(t, bullets, members, eligible, selectable)
    ensures forall c | c in Sorted(CitedIds(bullets)) :: c in members
    ensures PackClosed(BuildPackMap(LoadedPack(t, bullets, members)))
    ensures forall r | r in BuildPackMap(LoadedPack(t, bullets, members)).bullets :: BulletValid(r)
  {
    var cited, facts := CitedIds(bullets), PackFacts(bullets, members);
    RenderedCite(t, bullets, members, eligible, selectable);
    var m := BuildPackMap(LoadedPack(t, bullets, members));
    forall r | r in m.bullets
      ensures BulletValid(r) && forall log :: log in r.logs <==> LogOfBullet(m, r, log)
    {
      var i: nat :| i < |m.bullets| && m.bullets[i] == r;
      RenderedLogs(t, bullets, members, bullets[i], eligible, selectable);
    }
    PackReaches(t, bullets, members, eligible, selectable);
    assert FactsClosed(facts, m.facts, m.evidence) by { LoadedFactsClosed(t, facts, selectable); }
    assert forall c :: c in ClaimIds(m.claims) <==> c in cited by {
      LoadedLinksValid(t, facts, members, cited, selectable);
      SortedMembers(cited);
    }
    PackClosedBy(m, cited, facts);
  }

  /** Every graph the branch loader accepts builds a bullet-pack evidence map
      that the document's own validator accepts. */
  lemma LoadedPackIsAccepted(t: Tables, bullets: seq<Bullet>, members: Members, eligible: bool, selectable: Id -> bool)
    requires Exportable(t, bullets, members, eligible, selectable)
    requires forall i, j | 0 <= i < j < |bullets| :: bullets[i].id != bullets[j].id
    ensures forall c | c in Sorted(CitedIds(bullets)) :: c in members
    ensures PackAccepted(BuildPackMap(LoadedPack(t, bullets, members)))
  {
    LoadedPackClosed(t, bullets, members, eligible, selectable);
    LoadedLinksValid(t, PackFacts(bullets, members), members, CitedIds(bullets), selectable);
    RenderedDistinct(bullets);
    AcceptedWhen(BuildPackMap(LoadedPack(t, bullets, members)));
  }

  lemma RenderedDistinct(bullets: seq<Bullet>)
    requires forall i, j | 0 <= i < j < |bullets| :: bullets[i].id != bullets[j].id
    ensures Distinct(BulletIds(Each(bullets, Rendered)))
  {
    var ids := BulletIds(Each(bullets, Rendered));
    forall i, j | 0 <= i < j < |ids| ensures ids[i] != ids[j] {
      assert ids[i] == Each(bullets, Rendered)[i].bullet == bullets[i].id;
      assert ids[j] == Each(bullets, Rendered)[j].bullet == bullets[j].id;
    }
  }

  lemma AcceptedWhen(m: PackMap)
    requires m.bullets != [] && Distinct(BulletIds(m.bullets)) && PackClosed(m)
    requires LinksValid(m.claims, m.facts, m.evidence)
    requires forall b | b in m.bullets :: BulletValid(b)
    ensures PackAccepted(m)
  {
  }

  // ---- Nothing but the closure is accepted ----

  // Every link row says what the stored rows say.
  ghost predicate Truthful(
    t: Tables, members: Members, claims: seq<ClaimLink>, facts: seq<FactLink>, evidence: seq<EvidenceLink>)
  {
    && (forall l | l in claims :: l.claim in members && l == LinkOfClaim(members[l.claim]))
    && (forall l | l in facts :: l == LinkOfFact(LoadedFact(t, l.fact)))
    && (forall l | l in evidence :: l.item in t.evidence && l.log == t.evidence[l.item])
  }

  lemma SameIds(s: seq<Id>, r: seq<Id>)
    requires Ascending(s) && Ascending(r) && forall x :: x in s <==> x in r
    ensures s == r
  {
    assert Elements(s) == Elements(r);
    AscendingUnique(s, r);
  }

  lemma SameLinks(t: Tables, members: Members, a: AssessmentMap, b: AssessmentMap)
    requires Truthful(t, members, a.claims, a.facts, a.evidence) && Truthful(t, members, b.claims, b.facts, b.evidence)
    requires ClaimIds(a.claims) == ClaimIds(b.claims)
    requires FactIds(a.facts) == FactIds(b.facts)
    requires EvidenceIds(a.evidence) == EvidenceIds(b.evidence)
    ensures a.claims == b.claims && a.facts == b.facts && a.evidence == b.evidence
  {
    forall i | 0 <= i < |a.claims| ensures i < |b.claims| && a.claims[i] == b.claims[i] {
      assert |b.claims| == |ClaimIds(b.claims)|;
      assert a.claims[i].claim == ClaimIds(a.claims)[i] == b.claims[i].claim;
      assert a.claims[i] in a.claims && b.claims[i] in b.claims;
    }
    forall i | 0 <= i < |a.facts| ensures i < |b.facts| && a.facts[i] == b.facts[i] {
      assert |b.facts| == |FactIds(b.facts)|;
      assert a.facts[i].fact == FactIds(a.facts)[i] == b.facts[i].fact;
      assert a.facts[i] in a.facts && b.facts[i] in b.facts;
    }
    forall i | 0 <= i < |a.evidence| ensures i < |b.evidence| && a.evidence[i] == b.evidence[i] {
      assert |b.evidence| == |EvidenceIds(b.evidence)|;
      assert a.evidence[i].item == EvidenceIds(a.evidence)[i] == b.evidence[i].item;
      assert a.evidence[i] in a.evidence && b.evidence[i] in b.evidence;
    }
    assert |a.claims| == |ClaimIds(a.claims)| && |a.facts| == |FactIds(a.facts)|;
    assert |a.evidence| == |EvidenceIds(a.evidence)|;
    assert |b.claims| == |ClaimIds(b.claims)| && |b.facts| == |FactIds(b.facts)|;
    assert |b.evidence| == |EvidenceIds(b.evidence)|;
  }

  // Two closed link sets over the same bullets and stored rows name the same IDs.
  lemma SameClosure(m: PackMap, n: PackMap, t: Tables, members: Members)
    requires PackAccepted(m) && PackAccepted(n) && m.bullets == n.bullets
    requires Truthful(t, members, m.claims, m.facts, m.evidence) && Truthful(t, members, n.claims, n.facts, n.evidence)
    ensures m == n
  {
    forall c ensures c in ClaimIds(m.claims) <==> c in ClaimIds(n.claims) {
      assert CitedClaim(m, c) <==> CitedClaim(n, c);
    }
    SameIds(ClaimIds(m.claims), ClaimIds(n.claims));
    var a, b := AssessmentMap([], m.claims, [], []), AssessmentMap([], n.claims, [], []);
    SameLinks(t, members, a, b);
    forall f ensures f in FactIds(m.facts) <==> f in FactIds(n.facts) {
      assert (forall c :: CitedClaim(m, c) <==> CitedClaim(n, c)) && (ReachedFact(m, f) <==> ReachedFact(n, f));
    }
    SameIds(FactIds(m.facts), FactIds(n.facts));
    SameLinks(t, members, a.(facts := m.facts), b.(facts := n.facts));
    forall e ensures e in EvidenceIds(m.evidence) <==> e in EvidenceIds(n.evidence) {}
    SameIds(EvidenceIds(m.evidence), EvidenceIds(n.evidence));
    SameLinks(t, members, AssessmentMap([], m.claims, m.facts, m.evidence),
              AssessmentMap([], n.claims, n.facts, n.evidence));
  }

  lemma LoadedIsTruthful(t: Tables, facts: set<Id>, members: Members, claims: set<Id>, selectable: Id -> bool)
    requires FactsLoad(t, facts, selectable) && claims <= members.Keys
    requires forall c | c in claims :: members[c].facts != {}
    ensures forall c | c in Sorted(claims) :: c in members
    ensures Truthful(t, members, Each(ClaimsOf(members, Sorted(claims)), LinkOfClaim),
              Each(LoadedGraph(t, facts).facts, LinkOfFact), LoadedGraph(t, facts).evidence)
  {
    LoadedLinksValid(t, facts, members, claims, selectable);
    FactLinksOf(t, facts, selectable);
    EvidenceLinksOf(t, facts, selectable);
    forall l | l in LoadedGraph(t, facts).evidence ensures l.item in t.evidence && l.log == t.evidence[l.item] {
      assert Linked(LoadedGraph(t, facts).evidence, l.item, l.log);
    }
  }

  /** Loader and validator agree: over the rendered bullets of an exportable
      branch, a map whose rows tell the truth about the store is accepted
      exactly when it is the one the loaded graph builds. */
  lemma AcceptedPackIsTheLoadedOne(
    t: Tables, bullets: seq<Bullet>, members: Members, eligible: bool, selectable: Id -> bool, m: PackMap)
    requires Exportable(t, bullets, members, eligible, selectable)
    requires forall i, j | 0 <= i < j < |bullets| :: bullets[i].id != bullets[j].id
    requires m.bullets == Each(bullets, Rendered) && Truthful(t, members, m.claims, m.facts, m.evidence)
    ensures forall c | c in Sorted(CitedIds(bullets)) :: c in members
    ensures PackAccepted(m) <==> m == BuildPackMap(LoadedPack(t, bullets, members))
  {
    LoadedPackIsAccepted(t, bullets, members, eligible, selectable);
    LoadedIsTruthful(t, PackFacts(bullets, members), members, CitedIds(bullets), selectable);
    if PackAccepted(m) { SameClosure(m, BuildPackMap(LoadedPack(t, bullets, members)), t, members); }
  }

  /** The same agreement for an assessment, over the snapshot's claim set. */
  lemma AcceptedAssessmentIsTheLoadedOne(t: Tables, members: Members, selectable: Id -> bool, m: AssessmentMap)
    requires Assessable(t, members, selectable)
    requires Elements(m.rendered) == members.Keys && Truthful(t, members, m.claims, m.facts, m.evidence)
    ensures forall c :: c in Sorted(members.Keys) <==> c in members
    ensures AssessmentAccepted(m) <==> m == BuildAssessmentMap(LoadedAssessment(t, members))
  {
    LoadedAssessmentIsAccepted(t, members, selectable);
    var n := BuildAssessmentMap(LoadedAssessment(t, members));
    assert n.rendered == Sorted(members.Keys);
    LoadedIsTruthful(t, AllFacts(members), members, members.Keys, selectable);
    if AssessmentAccepted(m) { SameAssessment(m, n, t, members); }
  }

  lemma SameAssessment(m: AssessmentMap, n: AssessmentMap, t: Tables, members: Members)
    requires AssessmentAccepted(m) && AssessmentAccepted(n) && Elements(m.rendered) == Elements(n.rendered)
    requires Truthful(t, members, m.claims, m.facts, m.evidence) && Truthful(t, members, n.claims, n.facts, n.evidence)
    ensures m == n
  {
    AscendingUnique(m.rendered, n.rendered);
    SameLinks(t, members, m.(facts := [], evidence := []), n.(facts := [], evidence := []));
    SameIds(FactIds(m.facts), FactIds(n.facts));
    SameLinks(t, members, m.(evidence := []), n.(evidence := []));
    SameIds(EvidenceIds(m.evidence), EvidenceIds(n.evidence));
    SameLinks(t, members, m, n);
  }
}
