// The evidence-map documents and the closure their validators demand.
module EvidenceMap {
  import opened Basics
  import opened Ordering
  import opened Utf8

  datatype ClaimLink = ClaimLink(claim: Id, facts: seq<Id>, counter: seq<Id>)

  datatype FactLink = FactLink(fact: Id, evidence: seq<Id>, logs: seq<Id>)

  datatype EvidenceLink = EvidenceLink(item: Id, log: Id)

  datatype RenderedBullet = RenderedBullet(bullet: Id, claims: seq<Id>, facts: seq<Id>, logs: seq<Id>)

  datatype PackMap = PackMap(
    bullets: seq<RenderedBullet>, claims: seq<ClaimLink>, facts: seq<FactLink>, evidence: seq<EvidenceLink>)

  datatype AssessmentMap = AssessmentMap(
    rendered: seq<Id>, claims: seq<ClaimLink>, facts: seq<FactLink>, evidence: seq<EvidenceLink>)

  // ---- Row shape ----

  predicate ClaimLinkValid(l: ClaimLink) {
    Ascending(l.facts) && Ascending(l.counter) && Elements(l.counter) <= Elements(l.facts) && l.facts != []
  }

  predicate FactLinkValid(l: FactLink) {
    Ascending(l.evidence) && Ascending(l.logs) && l.evidence != [] && l.logs != []
  }

  predicate BulletValid(b: RenderedBullet) {
    Ascending(b.claims) && Ascending(b.facts) && Ascending(b.logs) && b.facts != [] && b.logs != []
  }

  function ClaimIds(ls: seq<ClaimLink>): seq<Id> { seq(|ls|, i requires 0 <= i < |ls| => ls[i].claim) }

  function FactIds(ls: seq<FactLink>): seq<Id> { seq(|ls|, i requires 0 <= i < |ls| => ls[i].fact) }

  function EvidenceIds(ls: seq<EvidenceLink>): seq<Id> { seq(|ls|, i requires 0 <= i < |ls| => ls[i].item) }

  function BulletIds(bs: seq<RenderedBullet>): seq<Id> { seq(|bs|, i requires 0 <= i < |bs| => bs[i].bullet) }

  predicate Distinct(s: seq<Id>) {
    forall i, j | 0 <= i < j < |s| :: s[i] != s[j]
  }

  predicate LinksValid(claims: seq<ClaimLink>, facts: seq<FactLink>, evidence: seq<EvidenceLink>) {
    && (forall l | l in claims :: ClaimLinkValid(l)) && (forall l | l in facts :: FactLinkValid(l))
    && Ascending(ClaimIds(claims)) && Ascending(FactIds(facts)) && Ascending(EvidenceIds(evidence))
  }

  // ---- The shape of the rows, spelled out ----

  // In the order of their UTF-8 bytes, none twice.
  ghost predicate IdList(s: seq<Id>) {
    forall i, j | 0 <= i < j < |s| :: BytesBefore(Encoded(s[i]), Encoded(s[j]))
  }

  ghost predicate ClaimShaped(l: ClaimLink) {
    IdList(l.facts) && IdList(l.counter) && |l.facts| > 0 && forall f | f in l.counter :: f in l.facts
  }

  ghost predicate FactShaped(l: FactLink) {
    IdList(l.evidence) && IdList(l.logs) && |l.evidence| > 0 && |l.logs| > 0
  }

  ghost predicate BulletShaped(b: RenderedBullet) {
    IdList(b.claims) && IdList(b.facts) && IdList(b.logs) && |b.facts| > 0 && |b.logs| > 0
  }

  ghost predicate LinksShaped(claims: seq<ClaimLink>, facts: seq<FactLink>, evidence: seq<EvidenceLink>) {
    && (forall l | l in claims :: ClaimShaped(l)) && (forall l | l in facts :: FactShaped(l))
    && (forall i, j | 0 <= i < j < |claims| :: BytesBefore(Encoded(claims[i].claim), Encoded(claims[j].claim)))
    && (forall i, j | 0 <= i < j < |facts| :: BytesBefore(Encoded(facts[i].fact), Encoded(facts[j].fact)))
    && forall i, j | 0 <= i < j < |evidence| :: BytesBefore(Encoded(evidence[i].item), Encoded(evidence[j].item))
  }

  lemma AscendingIsIdList(s: seq<Id>)
    ensures Ascending(s) <==> IdList(s)
  {
    forall i, j | 0 <= i < j < |s| ensures Before(s[i], s[j]) <==> BytesBefore(Encoded(s[i]), Encoded(s[j])) {
      BeforeIsByteOrder(s[i], s[j]);
    }
    if Ascending(s) {
      forall i, j | 0 <= i < j < |s| ensures BytesBefore(Encoded(s[i]), Encoded(s[j])) { AscendingFrom(s, i, j); }
    }
    if IdList(s) {
      forall i | 0 < i < |s| ensures Before(s[i - 1], s[i]) { BeforeIsByteOrder(s[i - 1], s[i]); }
    }
  }

  lemma RowsAreShaped(claims: seq<ClaimLink>, facts: seq<FactLink>)
    ensures (forall l | l in claims :: ClaimLinkValid(l)) <==> forall l | l in claims :: ClaimShaped(l)
    ensures (forall l | l in facts :: FactLinkValid(l)) <==> forall l | l in facts :: FactShaped(l)
  {
    forall l | l in claims ensures ClaimLinkValid(l) <==> ClaimShaped(l) {
      AscendingIsIdList(l.facts);
      AscendingIsIdList(l.counter);
      assert forall f | f in l.counter :: f in Elements(l.counter);
    }
    forall l | l in facts ensures FactLinkValid(l) <==> FactShaped(l) {
      AscendingIsIdList(l.evidence);
      AscendingIsIdList(l.logs);
    }
  }

  lemma LinksAreShaped(claims: seq<ClaimLink>, facts: seq<FactLink>, evidence: seq<EvidenceLink>)
    ensures LinksValid(claims, facts, evidence) <==> LinksShaped(claims, facts, evidence)
  {
    RowsAreShaped(claims, facts);
    AscendingIsIdList(ClaimIds(claims));
    AscendingIsIdList(FactIds(facts));
    AscendingIsIdList(EvidenceIds(evidence));
    KeysInOrder(claims, facts, evidence);
  }

  lemma KeysInOrder(claims: seq<ClaimLink>, facts: seq<FactLink>, evidence: seq<EvidenceLink>)
    ensures IdList(ClaimIds(claims)) <==>
            forall i, j | 0 <= i < j < |claims| :: BytesBefore(Encoded(claims[i].claim), Encoded(claims[j].claim))
    ensures IdList(FactIds(facts)) <==>
            forall i, j | 0 <= i < j < |facts| :: BytesBefore(Encoded(facts[i].fact), Encoded(facts[j].fact))
    ensures IdList(EvidenceIds(evidence)) <==>
            forall i, j | 0 <= i < j < |evidence| :: BytesBefore(Encoded(evidence[i].item), Encoded(evidence[j].item))
  {
    assert forall i | 0 <= i < |claims| :: ClaimIds(claims)[i] == claims[i].claim;
    assert forall i | 0 <= i < |facts| :: FactIds(facts)[i] == facts[i].fact;
    assert forall i | 0 <= i < |evidence| :: EvidenceIds(evidence)[i] == evidence[i].item;
  }

  lemma BulletsAreShaped(bullets: seq<RenderedBullet>)
    ensures (forall b | b in bullets :: BulletValid(b)) <==> forall b | b in bullets :: BulletShaped(b)
    ensures Distinct(BulletIds(bullets)) <==>
            forall i, j | 0 <= i < j < |bullets| :: bullets[i].bullet != bullets[j].bullet
  {
    forall b | b in bullets ensures BulletValid(b) <==> BulletShaped(b) {
      AscendingIsIdList(b.claims);
      AscendingIsIdList(b.facts);
      AscendingIsIdList(b.logs);
    }
    assert forall i | 0 <= i < |bullets| :: BulletIds(bullets)[i] == bullets[i].bullet;
  }

  // ---- The closure, as a reader would state it ----

  ghost predicate Linked(evidence: seq<EvidenceLink>, item: Id, log: Id) {
    exists l :: l in evidence && l.item == item && l.log == log
  }

  // A log some evidence of the fact comes from.
  ghost predicate LogOfFact(l: FactLink, evidence: seq<EvidenceLink>, log: Id) {
    exists e :: e in l.evidence && Linked(evidence, e, log)
  }

  // From the reached facts on: no link missing, none unused, and every fact
  // names exactly the logs of its own evidence.
  ghost predicate FactsClosed(reached: set<Id>, facts: seq<FactLink>, evidence: seq<EvidenceLink>) {
    && (forall f :: f in reached <==> f in FactIds(facts))
    && (forall e :: e in EvidenceIds(evidence) <==> exists l :: l in facts && e in l.evidence)
    && (forall l, log | l in facts :: log in l.logs <==> LogOfFact(l, evidence, log))
  }

  ghost predicate CitedClaim(m: PackMap, c: Id) {
    exists b :: b in m.bullets && c in b.claims
  }

  // A fact a bullet cites itself or through one of its claims.
  ghost predicate ReachedFact(m: PackMap, f: Id) {
    || (exists b :: b in m.bullets && f in b.facts)
    || (exists l :: l in m.claims && CitedClaim(m, l.claim) && f in l.facts)
  }

  ghost predicate LogOfBullet(m: PackMap, b: RenderedBullet, log: Id) {
    exists l :: l in m.facts && l.fact in b.facts && log in l.logs
  }

  ghost predicate PackClosed(m: PackMap) {
    && (forall c :: c in ClaimIds(m.claims) <==> CitedClaim(m, c))
    && (forall f :: f in FactIds(m.facts) <==> ReachedFact(m, f))
    && (forall e :: e in EvidenceIds(m.evidence) <==> exists l :: l in m.facts && e in l.evidence)
    && (forall l, log | l in m.facts :: log in l.logs <==> LogOfFact(l, m.evidence, log))
    && (forall b, log | b in m.bullets :: log in b.logs <==> LogOfBullet(m, b, log))
  }

  ghost predicate PackAccepted(m: PackMap) {
    && m.bullets != [] && Distinct(BulletIds(m.bullets)) && (forall b | b in m.bullets :: BulletValid(b))
    && LinksValid(m.claims, m.facts, m.evidence) && PackClosed(m)
  }

  // The same with the shape of the rows spelled out.
  ghost predicate PackWhole(m: PackMap) {
    && |m.bullets| > 0 && (forall i, j | 0 <= i < j < |m.bullets| :: m.bullets[i].bullet != m.bullets[j].bullet)
    && (forall b | b in m.bullets :: BulletShaped(b)) && LinksShaped(m.claims, m.facts, m.evidence) && PackClosed(m)
  }

  ghost predicate AssessmentClosed(m: AssessmentMap) {
    && (forall f :: f in FactIds(m.facts) <==> exists l :: l in m.claims && f in l.facts)
    && (forall e :: e in EvidenceIds(m.evidence) <==> exists l :: l in m.facts && e in l.evidence)
    && (forall l, log | l in m.facts :: log in l.logs <==> LogOfFact(l, m.evidence, log))
  }

  ghost predicate AssessmentAccepted(m: AssessmentMap) {
    && Ascending(m.rendered) && m.rendered == ClaimIds(m.claims)
    && LinksValid(m.claims, m.facts, m.evidence) && AssessmentClosed(m)
  }

  ghost predicate AssessmentWhole(m: AssessmentMap) {
    && |m.rendered| == |m.claims| && (forall i | 0 <= i < |m.claims| :: m.rendered[i] == m.claims[i].claim)
    && LinksShaped(m.claims, m.facts, m.evidence) && AssessmentClosed(m)
  }

  lemma AcceptedIsWhole(m: AssessmentMap)
    ensures AssessmentAccepted(m) <==> AssessmentWhole(m)
  {
    LinksAreShaped(m.claims, m.facts, m.evidence);
    if AssessmentWhole(m) {
      assert m.rendered == ClaimIds(m.claims);
    }
    if AssessmentAccepted(m) {
      assert forall i | 0 <= i < |m.claims| :: ClaimIds(m.claims)[i] == m.claims[i].claim;
    }
  }

  // ---- The validators ----

  // A dictionary built in list order: a later row replaces an earlier one.
  function LogByEvidence(evidence: seq<EvidenceLink>): map<Id, Id> {
    if evidence == [] then map[]
    else
      var l := evidence[|evidence| - 1];
      LogByEvidence(evidence[..|evidence| - 1])[l.item := l.log]
  }

  lemma {:induction false} AscendingDistinct(s: seq<Id>)
    requires Ascending(s)
    ensures Distinct(s)
  {
    forall i, j | 0 <= i < j < |s| ensures s[i] != s[j] {
      AscendingFrom(s, i, j);
      BeforeIrreflexive(s[i]);
    }
  }

  lemma {:induction false} LogByEvidenceIsLinked(evidence: seq<EvidenceLink>)
    requires Distinct(EvidenceIds(evidence))
    ensures LogByEvidence(evidence).Keys == Elements(EvidenceIds(evidence))
    ensures forall e, log ::
              Linked(evidence, e, log) <==> e in LogByEvidence(evidence) && LogByEvidence(evidence)[e] == log
  {
    if evidence != [] {
      var k := |evidence| - 1;
      var rest, last := evidence[..k], evidence[k];
      var ids := EvidenceIds(evidence);
      assert EvidenceIds(rest) == ids[..k];
      LogByEvidenceIsLinked(rest);
      assert evidence == rest + [last] && ids == EvidenceIds(rest) + [last.item];
      forall e, log ensures Linked(evidence, e, log) <==> Linked(rest, e, log) || (e == last.item && log == last.log) {
      }
      forall i | 0 <= i < k ensures rest[i].item != last.item {
        assert ids[i] != ids[k];
      }
    }
  }

  method ReachFacts(claims: seq<ClaimLink>, factIds: set<Id>) returns (r: Option<set<Id>>)
    ensures r.Some? <==> forall l, f | l in claims && f in l.facts :: f in factIds
    ensures r.Some? ==> forall f :: f in r.value <==> exists l :: l in claims && f in l.facts
  {
    var reached: set<Id> := {};
    for i := 0 to |claims|
      invariant forall f :: f in reached <==> exists l :: l in claims[..i] && f in l.facts
      invariant forall l, f | l in claims[..i] && f in l.facts :: f in factIds
    {
      if !(Elements(claims[i].facts) <= factIds) {
        assert exists f :: f in Elements(claims[i].facts) && f !in factIds;
        return None;
      }
      forall f | f in claims[i].facts ensures f in factIds { assert f in Elements(claims[i].facts); }
      assert claims[..i + 1] == claims[..i] + [claims[i]];
      reached := reached + Elements(claims[i].facts);
    }
    assert claims[..|claims|] == claims;
    return Some(reached);
  }

  method ValidateFactClosure(reached: set<Id>, facts: seq<FactLink>, evidence: seq<EvidenceLink>) returns (ok: bool)
    requires Distinct(EvidenceIds(evidence))
    ensures ok <==> FactsClosed(reached, facts, evidence)
  {
    if reached != Elements(FactIds(facts)) {
      assert !(forall f :: f in reached <==> f in FactIds(facts));
      return false;
    }
    var evidenceIds := Elements(EvidenceIds(evidence));
    assert forall e :: e in evidenceIds <==> e in EvidenceIds(evidence);
    assert forall f :: f in reached <==> f in FactIds(facts);
    var logs := LogByEvidence(evidence);
    LogByEvidenceIsLinked(evidence);
    var reachedEvidence: set<Id> := {};
    for i := 0 to |facts|
      invariant forall e :: e in reachedEvidence <==> exists l :: l in facts[..i] && e in l.evidence
      invariant reachedEvidence <= evidenceIds
      invariant forall l, log | l in facts[..i] :: log in l.logs <==> LogOfFact(l, evidence, log)
    {
      var l := facts[i];
      assert facts[..i + 1] == facts[..i] + [l];
      if !(Elements(l.evidence) <= evidenceIds) {
        var e :| e in l.evidence && e !in evidenceIds;
        assert l in facts;
        return false;
      }
      forall e | e in l.evidence ensures e in logs { assert e in Elements(l.evidence); }
      OwnLogs(l, evidence);
      if Elements(l.logs) != set e | e in l.evidence :: logs[e] {
        assert l in facts;
        return false;
      }
      reachedEvidence := reachedEvidence + Elements(l.evidence);
    }
    assert facts[..|facts|] == facts;
    ok := reachedEvidence == evidenceIds;
    if !ok {
      var e :| e in evidenceIds && e !in reachedEvidence;
      assert !exists l :: l in facts && e in l.evidence;
    }
  }

  lemma OwnLogs(l: FactLink, evidence: seq<EvidenceLink>)
    requires Distinct(EvidenceIds(evidence))
    requires forall e | e in l.evidence :: e in LogByEvidence(evidence)
    ensures Elements(l.logs) == (set e | e in l.evidence :: LogByEvidence(evidence)[e])
            <==> forall log :: log in l.logs <==> LogOfFact(l, evidence, log)
  {
    LogByEvidenceIsLinked(evidence);
    var own := set e | e in l.evidence :: LogByEvidence(evidence)[e];
    forall log ensures log in own <==> LogOfFact(l, evidence, log) {
      if log in own {
        var e :| e in l.evidence && LogByEvidence(evidence)[e] == log;
        assert Linked(evidence, e, log);
      }
    }
    assert forall log :: log in Elements(l.logs) <==> log in l.logs;
  }

  method ValidateAssessmentMap(m: AssessmentMap) returns (ok: bool)
    ensures ok <==> AssessmentAccepted(m)
    ensures ok <==> AssessmentWhole(m)
  {
    AcceptedIsWhole(m);
    if !Ascending(m.rendered) || !LinksValid(m.claims, m.facts, m.evidence) || m.rendered != ClaimIds(m.claims) {
      return false;
    }
    AscendingDistinct(EvidenceIds(m.evidence));
    var factIds := Elements(FactIds(m.facts));
    var reached := ReachFacts(m.claims, factIds);
    if reached.None? {
      var l, f :| l in m.claims && f in l.facts && f !in factIds;
      assert f !in FactIds(m.facts);
      return false;
    }
    ok := ValidateFactClosure(reached.value, m.facts, m.evidence);
  }

  // The union of the link logs of a bullet's own facts.
  method BulletLogs(b: RenderedBullet, facts: seq<FactLink>) returns (r: Option<set<Id>>)
    requires Distinct(FactIds(facts))
    ensures r.Some? <==> forall f | f in b.facts :: f in FactIds(facts)
    ensures r.Some? ==> forall log :: log in r.value <==> exists l :: l in facts && l.fact in b.facts && log in l.logs
  {
    var logs: set<Id> := {};
    for i := 0 to |b.facts|
      invariant forall f | f in b.facts[..i] :: f in FactIds(facts)
      invariant forall log :: log in logs <==> exists l :: l in facts && l.fact in b.facts[..i] && log in l.logs
    {
      var f := b.facts[i];
      assert b.facts[..i + 1] == b.facts[..i] + [f];
      if f !in FactIds(facts) { return None; }
      var k: nat :| k < |facts| && FactIds(facts)[k] == f;
      OnlyLink(facts, k);
      logs := logs + Elements(facts[k].logs);
    }
    assert b.facts[..|b.facts|] == b.facts;
    return Some(logs);
  }

  lemma OnlyLink(facts: seq<FactLink>, k: nat)
    requires Distinct(FactIds(facts)) && k < |facts|
    ensures forall l | l in facts && l.fact == facts[k].fact :: l == facts[k]
  {
    forall i | 0 <= i < |facts| && facts[i].fact == facts[k].fact ensures i == k {
      assert FactIds(facts)[i] == FactIds(facts)[k];
    }
  }

  // The loop over the bullets: what they cite, or that one cites wrongly.
  method CiteAll(m: PackMap) returns (ok: bool, claims: set<Id>, facts: set<Id>)
    requires Distinct(FactIds(m.facts))
    ensures ok <==> forall b | b in m.bullets :: CitesWell(m, b)
    ensures ok ==> forall c :: c in claims <==> CitedClaim(m, c)
    ensures ok ==> forall f :: f in facts <==> exists b :: b in m.bullets && f in b.facts
  {
    ok, claims, facts := true, {}, {};
    var claimIds := Elements(ClaimIds(m.claims));
    for i := 0 to |m.bullets|
      invariant ok && forall b | b in m.bullets[..i] :: CitesWell(m, b)
      invariant forall c :: c in claims <==> exists b :: b in m.bullets[..i] && c in b.claims
      invariant forall f :: f in facts <==> exists b :: b in m.bullets[..i] && f in b.facts
    {
      var b := m.bullets[i];
      assert b in m.bullets && m.bullets[..i + 1] == m.bullets[..i] + [b];
      if !(Elements(b.claims) <= claimIds) {
        var c :| c in b.claims && c !in claimIds;
        assert c !in ClaimIds(m.claims);
        return false, {}, {};
      }
      var logs := BulletLogs(b, m.facts);
      if logs.None? || Elements(b.logs) != logs.value {
        assert logs.Some? ==> exists log :: (log in b.logs) != (log in logs.value);
        return false, {}, {};
      }
      forall c | c in b.claims ensures c in ClaimIds(m.claims) { assert c in Elements(b.claims); }
      assert forall log :: log in Elements(b.logs) <==> log in b.logs;
      claims, facts := claims + Elements(b.claims), facts + Elements(b.facts);
    }
    assert m.bullets[..|m.bullets|] == m.bullets;
  }

  // A bullet cites linked claims and facts only, and its logs are exactly its facts'.
  ghost predicate CitesWell(m: PackMap, b: RenderedBullet) {
    && (forall c | c in b.claims :: c in ClaimIds(m.claims))
    && (forall f | f in b.facts :: f in FactIds(m.facts))
    && forall log :: log in b.logs <==> LogOfBullet(m, b, log)
  }

  /** The bullet-pack validator accepts a map exactly when its links are the
      closure of its rendered bullets: none missing, none unused, and every
      edge its own. */
  method ValidatePackMap(m: PackMap) returns (ok: bool)
    ensures ok <==> PackAccepted(m)
    ensures ok <==> PackWhole(m)
  {
    BulletsAreShaped(m.bullets);
    LinksAreShaped(m.claims, m.facts, m.evidence);
    if m.bullets == [] || !Distinct(BulletIds(m.bullets)) || !(forall b | b in m.bullets :: BulletValid(b))
       || !LinksValid(m.claims, m.facts, m.evidence) {
      return false;
    }
    AscendingDistinct(EvidenceIds(m.evidence));
    AscendingDistinct(FactIds(m.facts));
    var cites, claims, facts := CiteAll(m);
    if !cites {
      CitesFollow(m);
      return false;
    }
    assert forall c :: c in ClaimIds(m.claims) <==> c in Elements(ClaimIds(m.claims));
    if claims != Elements(ClaimIds(m.claims)) {
      assert !(forall c :: c in ClaimIds(m.claims) <==> CitedClaim(m, c));
      return false;
    }
    var reached := ReachFacts(m.claims, Elements(FactIds(m.facts)));
    AllCited(m);
    if reached.None? {
      var l, f :| l in m.claims && f in l.facts && f !in Elements(FactIds(m.facts));
      assert ReachedFact(m, f) && f !in FactIds(m.facts);
      return false;
    }
    assert forall f :: f in facts + reached.value <==> ReachedFact(m, f);
    ok := ValidateFactClosure(facts + reached.value, m.facts, m.evidence);
  }

  lemma AllCited(m: PackMap)
    requires forall c :: c in ClaimIds(m.claims) <==> CitedClaim(m, c)
    ensures forall l | l in m.claims :: CitedClaim(m, l.claim)
  {
    forall l | l in m.claims ensures CitedClaim(m, l.claim) {
      var i: nat :| i < |m.claims| && m.claims[i] == l;
      assert ClaimIds(m.claims)[i] == l.claim;
    }
  }

  lemma CitesFollow(m: PackMap)
    ensures PackClosed(m) ==> forall b | b in m.bullets :: CitesWell(m, b)
  {
    if PackClosed(m) {
      forall b | b in m.bullets ensures CitesWell(m, b) {
        forall c | c in b.claims ensures c in ClaimIds(m.claims) { assert CitedClaim(m, c); }
        forall f | f in b.facts ensures f in FactIds(m.facts) { assert ReachedFact(m, f); }
      }
    }
  }
}
