// The order bullets render in, and the pack that groups them by section.
module RenderOrder {
  import opened Basics
  import opened Ordering
  import opened Utf8
  import opened Sorting

  const SECTIONS := 6

  // Sections count in their declared order.
  datatype Bullet = Bullet(id: Id, section: nat, matched: seq<Id>, text: string)

  datatype Arranged = Ok(bullets: seq<Bullet>) | TextDuplicate | ProjectionCollision

  // ---- The key ----

  // A dictionary from requirement to index: the last index of a repeated one.
  function Position(requirements: seq<Id>, id: Id): Option<nat> {
    if requirements == [] then None
    else if requirements[|requirements| - 1] == id then Some(|requirements| - 1)
    else Position(requirements[..|requirements| - 1], id)
  }

  // The earliest matched requirement, or the end of the list.
  function Earliest(requirements: seq<Id>, matched: seq<Id>): nat {
    if matched == [] then |requirements|
    else
      var others := Earliest(requirements, matched[1..]);
      var p := Position(requirements, matched[0]);
      if p.Some? && p.value < others then p.value else others
  }

  predicate KeyAtMost(requirements: seq<Id>, a: Bullet, b: Bullet) {
    var p, q := Earliest(requirements, a.matched), Earliest(requirements, b.matched);
    a.section < b.section || (a.section == b.section && (p < q || (p == q && AtMost(a.text, b.text))))
  }

  function ByKey(requirements: seq<Id>): (Bullet, Bullet) -> bool {
    (a, b) => KeyAtMost(requirements, a, b)
  }

  lemma KeyOrders(requirements: seq<Id>)
    ensures TotalPreorder(ByKey(requirements))
    ensures forall a, b | KeyAtMost(requirements, a, b) && KeyAtMost(requirements, b, a) :: a.text == b.text
  {
    forall x, y, z: Id
      ensures AtMost(x, y) || AtMost(y, x)
      ensures AtMost(x, y) && AtMost(y, z) ==> AtMost(x, z)
      ensures AtMost(x, y) && AtMost(y, x) ==> x == y
    {
      AtMostOrder(x, y, z);
    }
  }

  // ---- What the key means ----

  // The bullet matches the requirement whose last listing is at `k`.
  ghost predicate Meets(requirements: seq<Id>, matched: seq<Id>, k: nat) {
    k < |requirements| && requirements[k] in matched && requirements[k] !in requirements[k + 1..]
  }

  // Whatever `b` meets, `a` meets that or an earlier one.
  ghost predicate NoLater(requirements: seq<Id>, a: seq<Id>, b: seq<Id>) {
    forall k: nat | Meets(requirements, b, k) :: exists j: nat :: j <= k && Meets(requirements, a, j)
  }

  // By section, then by the earliest requirement met, then by the UTF-8 bytes of the text.
  ghost predicate RendersBefore(requirements: seq<Id>, a: Bullet, b: Bullet) {
    || a.section < b.section
    || (a.section == b.section && NoLater(requirements, a.matched, b.matched)
        && (NoLater(requirements, b.matched, a.matched) ==>
              a.text == b.text || BytesBefore(Encoded(a.text), Encoded(b.text))))
  }

  lemma {:induction false} PositionIsLast(requirements: seq<Id>, id: Id)
    ensures match Position(requirements, id)
            case None => id !in requirements
            case Some(p) => p < |requirements| && requirements[p] == id && id !in requirements[p + 1..]
  {
    if requirements != [] && requirements[|requirements| - 1] != id {
      var before := requirements[..|requirements| - 1];
      PositionIsLast(before, id);
      if p :| Position(before, id) == Some(p) {
        assert requirements[p + 1..] == before[p + 1..] + [requirements[|requirements| - 1]];
      }
    }
  }

  lemma {:induction false} EarliestIsMet(requirements: seq<Id>, matched: seq<Id>)
    ensures var e := Earliest(requirements, matched);
            && e <= |requirements| && (e < |requirements| ==> Meets(requirements, matched, e))
            && forall k: nat | Meets(requirements, matched, k) :: e <= k
  {
    if matched != [] {
      EarliestIsMet(requirements, matched[1..]);
      PositionIsLast(requirements, matched[0]);
      forall k: nat | Meets(requirements, matched, k) ensures Earliest(requirements, matched) <= k {
        if requirements[k] != matched[0] { assert Meets(requirements, matched[1..], k); }
      }
    }
  }

  lemma NoLaterIsAtMost(requirements: seq<Id>, a: seq<Id>, b: seq<Id>)
    ensures NoLater(requirements, a, b) <==> Earliest(requirements, a) <= Earliest(requirements, b)
  {
    EarliestIsMet(requirements, a);
    EarliestIsMet(requirements, b);
  }

  lemma KeyMeans(requirements: seq<Id>, a: Bullet, b: Bullet)
    ensures KeyAtMost(requirements, a, b) <==> RendersBefore(requirements, a, b)
  {
    NoLaterIsAtMost(requirements, a.matched, b.matched);
    NoLaterIsAtMost(requirements, b.matched, a.matched);
    BeforeIsByteOrder(a.text, b.text);
  }

  // ---- The order ----

  predicate DistinctBy(bullets: seq<Bullet>, f: string -> string) {
    forall i, j | 0 <= i < j < |bullets| :: f(bullets[i].text) != f(bullets[j].text)
  }

  function RenderOrder(bullets: seq<Bullet>, requirements: seq<Id>, project: string -> string): Arranged {
    var ordered := SortBy(bullets, ByKey(requirements));
    if !DistinctBy(ordered, t => t) then TextDuplicate
    else if !DistinctBy(ordered, project) then ProjectionCollision
    else Ok(ordered)
  }

  lemma DistinctIsUnordered(s: seq<Bullet>, f: string -> string)
    ensures DistinctBy(s, f) <==>
      NoRepeats(s) && forall x, y | x in s && y in s && f(x.text) == f(y.text) :: x == y
  {
    if DistinctBy(s, f) {
      forall x, y | x in s && y in s && f(x.text) == f(y.text) ensures x == y {
        var i :| 0 <= i < |s| && s[i] == x;
        var j :| 0 <= j < |s| && s[j] == y;
        assert !(i < j) && !(j < i);
      }
    }
  }

  lemma DistinctIgnoresOrder(s: seq<Bullet>, t: seq<Bullet>, f: string -> string)
    requires multiset(s) == multiset(t)
    ensures DistinctBy(s, f) <==> DistinctBy(t, f)
  {
    DistinctIsUnordered(s, f);
    DistinctIsUnordered(t, f);
    SameMembers(s, t);
    NoRepeatsByCount(s);
    NoRepeatsByCount(t);
  }

  /** The render order is a function of the collection of bullets: however the
      rows arrive, the same sequence comes out or the same refusal. */
  lemma RenderOrderIgnoresInput(s: seq<Bullet>, t: seq<Bullet>, requirements: seq<Id>, project: string -> string)
    requires multiset(s) == multiset(t)
    ensures RenderOrder(s, requirements, project) == RenderOrder(t, requirements, project)
  {
    var a, b := SortBy(s, ByKey(requirements)), SortBy(t, ByKey(requirements));
    DistinctIgnoresOrder(a, s, t => t);
    DistinctIgnoresOrder(s, t, t => t);
    DistinctIgnoresOrder(a, b, t => t);
    DistinctIgnoresOrder(a, b, project);
    if DistinctBy(s, t => t) {
      KeyOrders(requirements);
      forall i, j | 0 <= i < |s| && 0 <= j < |s| && ByKey(requirements)(s[i], s[j]) && ByKey(requirements)(s[j], s[i])
        ensures s[i] == s[j]
      {
        assert s[i].text == s[j].text;
      }
      SortByIgnoresOrder(s, t, ByKey(requirements));
    }
  }

  /** The order is refused exactly when two bullets would render the same
      logical text, and otherwise arranges all of them by section, earliest
      requirement met and text bytes. */
  lemma RenderOrderIsTotal(s: seq<Bullet>, requirements: seq<Id>, project: string -> string)
    ensures RenderOrder(s, requirements, project).Ok? <==> DistinctBy(s, project)
    ensures RenderOrder(s, requirements, project).Ok? ==>
      var r := RenderOrder(s, requirements, project).bullets;
      && multiset(r) == multiset(s) && SectionsInOrder(r)
      && forall i, j | 0 <= i < j < |r| :: RendersBefore(requirements, r[i], r[j])
  {
    var r := SortBy(s, ByKey(requirements));
    KeyOrders(requirements);
    SortByOrdered(s, ByKey(requirements));
    DistinctIgnoresOrder(r, s, project);
    forall i, j | 0 <= i < j < |r| ensures r[i].section <= r[j].section && RendersBefore(requirements, r[i], r[j]) {
      assert ByKey(requirements)(r[i], r[j]);
      KeyMeans(requirements, r[i], r[j]);
    }
    assert DistinctBy(r, project) ==> DistinctBy(r, t => t);
  }

  // ---- The pack ----

  predicate SectionsInOrder(bullets: seq<Bullet>) {
    forall i, j | 0 <= i < j < |bullets| :: bullets[i].section <= bullets[j].section
  }

  datatype Line = Title | Blank | Heading(section: nat) | Item(text: string)

  // The texts of one section, in the order of the bullets.
  function TextsOf(bullets: seq<Bullet>, section: nat): seq<string> {
    if bullets == [] then []
    else
      var last := bullets[|bullets| - 1];
      TextsOf(bullets[..|bullets| - 1], section) + if last.section == section then [last.text] else []
  }

  function BySection(bullets: seq<Bullet>): seq<seq<string>> {
    seq(SECTIONS, s requires 0 <= s < SECTIONS => TextsOf(bullets, s))
  }

  function Items(texts: seq<string>): seq<Line> {
    seq(|texts|, i requires 0 <= i < |texts| => Item(texts[i]))
  }

  // A heading, its items, and a separator unless it is the last section.
  function SectionBlock(section: nat, texts: seq<string>): seq<Line> {
    [Heading(section)] + (if texts == [] then [] else [Blank] + Items(texts))
    + (if section == SECTIONS - 1 then [] else [Blank])
  }

  // From one section on.
  function SectionLines(texts: seq<seq<string>>, section: nat): seq<Line>
    requires section <= SECTIONS == |texts|
    decreases SECTIONS - section
  {
    if section == SECTIONS then [] else SectionBlock(section, texts[section]) + SectionLines(texts, section + 1)
  }

  // What a reader finds as bullet items, top to bottom.
  function ItemTexts(lines: seq<Line>): seq<string> {
    if lines == [] then []
    else (if lines[0].Item? then [lines[0].text] else []) + ItemTexts(lines[1..])
  }

  function Texts(bullets: seq<Bullet>): seq<string> {
    seq(|bullets|, i requires 0 <= i < |bullets| => bullets[i].text)
  }

  function AllTexts(texts: seq<seq<string>>, section: nat): seq<string>
    requires section <= SECTIONS == |texts|
    decreases SECTIONS - section
  {
    if section == SECTIONS then [] else texts[section] + AllTexts(texts, section + 1)
  }

  ghost predicate Grouped(groups: map<nat, seq<string>>, bullets: seq<Bullet>) {
    forall section: nat | section < SECTIONS :: section in groups && groups[section] == TextsOf(bullets, section)
  }

  method GroupTexts(bullets: seq<Bullet>) returns (groups: map<nat, seq<string>>)
    requires forall b | b in bullets :: b.section < SECTIONS
    ensures Grouped(groups, bullets)
  {
    groups := map[0 := [], 1 := [], 2 := [], 3 := [], 4 := [], 5 := []];
    for i := 0 to |bullets|
      invariant Grouped(groups, bullets[..i])
    {
      assert bullets[..i + 1][..i] == bullets[..i] && bullets[i] in bullets;
      groups := groups[bullets[i].section := groups[bullets[i].section] + [bullets[i].text]];
    }
    assert bullets[..|bullets|] == bullets;
  }

  method RenderSection(section: nat, texts: seq<string>) returns (lines: seq<Line>)
    ensures lines == SectionBlock(section, texts)
  {
    lines := [Heading(section)];
    if texts != [] {
      lines := lines + [Blank];
      for k := 0 to |texts|
        invariant lines == [Heading(section)] + ([Blank] + Items(texts[..k]))
      {
        assert Items(texts[..k + 1]) == Items(texts[..k]) + [Item(texts[k])];
        lines := lines + [Item(texts[k])];
      }
      assert texts[..|texts|] == texts;
    }
    if section != SECTIONS - 1 { lines := lines + [Blank]; }
  }

  method RenderBulletPack(bullets: seq<Bullet>) returns (lines: seq<Line>)
    requires forall b | b in bullets :: b.section < SECTIONS
    ensures lines == [Title, Blank] + SectionLines(BySection(bullets), 0)
  {
    var groups := GroupTexts(bullets);
    ghost var texts := BySection(bullets);
    lines := [Title, Blank];
    for section := 0 to SECTIONS
      invariant UpTo(texts, section, lines)
    {
      var block := RenderSection(section, groups[section]);
      OneMoreSection(texts, section, lines);
      lines := lines + block;
    }
  }

  ghost predicate UpTo(texts: seq<seq<string>>, section: nat, lines: seq<Line>)
    requires section <= SECTIONS == |texts|
  {
    lines + SectionLines(texts, section) == [Title, Blank] + SectionLines(texts, 0)
  }

  lemma OneMoreSection(texts: seq<seq<string>>, section: nat, lines: seq<Line>)
    requires section < SECTIONS == |texts| && UpTo(texts, section, lines)
    ensures UpTo(texts, section + 1, lines + SectionBlock(section, texts[section]))
  {
    Regroup(lines, SectionBlock(section, texts[section]), SectionLines(texts, section + 1));
  }

  lemma Regroup<T>(a: seq<T>, b: seq<T>, c: seq<T>)
    ensures a + b + c == a + (b + c)
  {
  }

  // ---- Pack and map agree on the order ----

  lemma {:induction false} ItemTextsAppend(a: seq<Line>, b: seq<Line>)
    ensures ItemTexts(a + b) == ItemTexts(a) + ItemTexts(b)
  {
    if a == [] {
      assert a + b == b;
    } else {
      assert (a + b)[1..] == a[1..] + b;
      ItemTextsAppend(a[1..], b);
    }
  }

  lemma {:induction false} ItemsRead(texts: seq<string>)
    ensures ItemTexts(Items(texts)) == texts
  {
    if texts != [] {
      assert Items(texts)[1..] == Items(texts[1..]);
      ItemsRead(texts[1..]);
    }
  }

  lemma BlockRead(section: nat, texts: seq<string>)
    ensures ItemTexts(SectionBlock(section, texts)) == texts
  {
    var items := if texts == [] then [] else [Blank] + Items(texts);
    var end := if section == SECTIONS - 1 then [] else [Blank];
    ItemsRead(texts);
    assert ItemTexts([Blank]) == [] && ItemTexts([Heading(section)]) == [] && ItemTexts(end) == [];
    ItemTextsAppend([Blank], Items(texts));
    ItemTextsAppend([Heading(section)], items);
    ItemTextsAppend([Heading(section)] + items, end);
  }

  lemma {:induction false} SectionsRead(texts: seq<seq<string>>, section: nat)
    requires section <= SECTIONS == |texts|
    ensures ItemTexts(SectionLines(texts, section)) == AllTexts(texts, section)
    decreases SECTIONS - section
  {
    if section < SECTIONS {
      BlockRead(section, texts[section]);
      SectionsRead(texts, section + 1);
      ItemTextsAppend(SectionBlock(section, texts[section]), SectionLines(texts, section + 1));
    }
  }

  // `b` is `a` with `text` added to section `k`, behind which there is none.
  ghost predicate LastAdded(a: seq<seq<string>>, b: seq<seq<string>>, k: nat, text: string) {
    && |a| == |b| == SECTIONS && k < SECTIONS
    && (forall s: nat | s < SECTIONS :: b[s] == a[s] + if s == k then [text] else [])
    && forall s: nat | k < s < SECTIONS :: a[s] == []
  }

  // Then it comes last.
  lemma {:induction false} LastComesLast(a: seq<seq<string>>, b: seq<seq<string>>, k: nat, text: string, section: nat)
    requires LastAdded(a, b, k, text) && section <= SECTIONS
    ensures AllTexts(b, section) == AllTexts(a, section) + if section <= k then [text] else []
    decreases SECTIONS - section
  {
    if section < SECTIONS {
      LastComesLast(a, b, k, text, section + 1);
      if section == k { NoneBehind(a, section + 1); }
      HereOrLater(a[section], AllTexts(a, section + 1), text, section == k, section < k);
    }
  }

  lemma HereOrLater(texts: seq<string>, rest: seq<string>, text: string, here: bool, later: bool)
    requires here ==> !later && rest == []
    ensures (texts + if here then [text] else []) + (rest + if later then [text] else [])
            == texts + rest + if here || later then [text] else []
  {
  }

  lemma LastText(bullets: seq<Bullet>, section: nat)
    requires bullets != []
    ensures var last := bullets[|bullets| - 1];
            TextsOf(bullets, section)
            == TextsOf(bullets[..|bullets| - 1], section) + if last.section == section then [last.text] else []
  {
  }

  lemma {:induction false} NoTexts(bullets: seq<Bullet>, section: nat)
    requires forall b | b in bullets :: b.section < section
    ensures TextsOf(bullets, section) == []
  {
    if bullets != [] { NoTexts(bullets[..|bullets| - 1], section); }
  }

  lemma {:induction false} NoneBehind(texts: seq<seq<string>>, section: nat)
    requires section <= SECTIONS == |texts| && forall s: nat | section <= s < SECTIONS :: texts[s] == []
    ensures AllTexts(texts, section) == []
    decreases SECTIONS - section
  {
    if section < SECTIONS { NoneBehind(texts, section + 1); }
  }

  lemma {:induction false} GroupingKeepsOrder(bullets: seq<Bullet>)
    requires SectionsInOrder(bullets) && forall b | b in bullets :: b.section < SECTIONS
    ensures AllTexts(BySection(bullets), 0) == Texts(bullets)
  {
    if bullets == [] {
      NoneBehind(BySection([]), 0);
    } else {
      var last, before := bullets[|bullets| - 1], bullets[..|bullets| - 1];
      GroupingKeepsOrder(before);
      LastIsAdded(bullets);
      LastComesLast(BySection(before), BySection(bullets), last.section, last.text, 0);
      LastOfTexts(bullets);
    }
  }

  lemma LastOfTexts(bullets: seq<Bullet>)
    requires bullets != []
    ensures Texts(bullets) == Texts(bullets[..|bullets| - 1]) + [bullets[|bullets| - 1].text]
  {
  }

  lemma LastIsAdded(bullets: seq<Bullet>)
    requires bullets != [] && SectionsInOrder(bullets) && forall b | b in bullets :: b.section < SECTIONS
    ensures var last := bullets[|bullets| - 1];
            LastAdded(BySection(bullets[..|bullets| - 1]), BySection(bullets), last.section, last.text)
  {
    var last, before := bullets[|bullets| - 1], bullets[..|bullets| - 1];
    LastIsHighest(bullets);
    forall s: nat | s < SECTIONS
      ensures BySection(bullets)[s] == BySection(before)[s] + if s == last.section then [last.text] else []
      ensures s > last.section ==> BySection(before)[s] == []
    {
      LastText(bullets, s);
      if s > last.section { NoTexts(before, s); }
    }
  }

  lemma LastIsHighest(bullets: seq<Bullet>)
    requires bullets != [] && SectionsInOrder(bullets)
    ensures forall b | b in bullets :: b.section <= bullets[|bullets| - 1].section
  {
    forall b | b in bullets ensures b.section <= bullets[|bullets| - 1].section {
      var i: nat :| i < |bullets| && bullets[i] == b;
    }
  }

  /** The pack shows every bullet of the render order exactly once and in that
      same order, the order the evidence map lists them in. */
  lemma PackKeepsRenderOrder(s: seq<Bullet>, requirements: seq<Id>, project: string -> string)
    requires RenderOrder(s, requirements, project).Ok? && forall b | b in s :: b.section < SECTIONS
    ensures var bullets := RenderOrder(s, requirements, project).bullets;
      ItemTexts([Title, Blank] + SectionLines(BySection(bullets), 0)) == Texts(bullets)
  {
    var bullets := RenderOrder(s, requirements, project).bullets;
    RenderOrderIsTotal(s, requirements, project);
    SameMembers(s, bullets);
    GroupingKeepsOrder(bullets);
    SectionsRead(BySection(bullets), 0);
    assert ItemTexts([Blank]) == [] && ItemTexts([Title, Blank][1..]) == [];
    ItemTextsAppend([Title, Blank], SectionLines(BySection(bullets), 0));
  }
}
