// Scanning decoded import records under one payload-wide object cap.
module Records {
  import opened Basics

  const MAX_PAYLOAD_OBJECTS := 10_000
  const MAX_JSON_NESTING := 32

  // A decoded value: only its shape matters to the scan.
  datatype Node = Scalar | Float | List(items: seq<Node>) | Object(values: seq<Node>)

  datatype Reason = NestingTooDeep | FloatValue | NotJson

  // ---- What a scan has to find ----

  function Children(n: Node): seq<Node> {
    match n
    case List(items) => items
    case Object(values) => values
    case _ => []
  }

  function Objects(n: Node): nat
    decreases n, |Children(n)| + 1
  {
    (if n.Object? then 1 else 0) + ObjectsFrom(n, 0)
  }

  function ObjectsFrom(n: Node, i: nat): nat
    requires i <= |Children(n)|
    decreases n, |Children(n)| - i
  {
    if i == |Children(n)| then 0 else Objects(Children(n)[i]) + ObjectsFrom(n, i + 1)
  }

  // A node's own defect.
  function Own(n: Node, depth: nat): seq<Reason> {
    if depth > 32 then [NestingTooDeep] else if n.Float? then [FloatValue] else []
  }

  // Every defect below and at a node, in document order.
  function Defects(n: Node, depth: nat): seq<Reason>
    decreases n, |Children(n)| + 1
  {
    Own(n, depth) + DefectsFrom(n, 0, depth + 1)
  }

  function DefectsFrom(n: Node, i: nat, depth: nat): seq<Reason>
    requires i <= |Children(n)|
    decreases n, |Children(n)| - i
  {
    if i == |Children(n)| then [] else Defects(Children(n)[i], depth) + DefectsFrom(n, i + 1, depth)
  }

  function First(s: seq<Reason>): Option<Reason> {
    if s == [] then None else Some(s[0])
  }

  function Nodes(n: Node): (r: nat)
    ensures r > 0
    decreases n, |Children(n)| + 1
  {
    1 + NodesFrom(n, 0)
  }

  function NodesFrom(n: Node, i: nat): nat
    requires i <= |Children(n)|
    decreases n, |Children(n)| - i
  {
    if i == |Children(n)| then 0 else Nodes(Children(n)[i]) + NodesFrom(n, i + 1)
  }

  // ---- What is still on the stack, topmost entry first ----

  datatype Entry = Entry(node: Node, depth: nat)

  function ObjectsLeft(stack: seq<Entry>): nat {
    if stack == [] then 0 else Objects(stack[|stack| - 1].node) + ObjectsLeft(stack[..|stack| - 1])
  }

  function DefectsLeft(stack: seq<Entry>): seq<Reason> {
    if stack == [] then []
    else Defects(stack[|stack| - 1].node, stack[|stack| - 1].depth) + DefectsLeft(stack[..|stack| - 1])
  }

  function NodesLeft(stack: seq<Entry>): nat {
    if stack == [] then 0 else Nodes(stack[|stack| - 1].node) + NodesLeft(stack[..|stack| - 1])
  }

  lemma Pushed(stack: seq<Entry>, e: Entry)
    ensures ObjectsLeft(stack + [e]) == Objects(e.node) + ObjectsLeft(stack)
    ensures DefectsLeft(stack + [e]) == Defects(e.node, e.depth) + DefectsLeft(stack)
    ensures NodesLeft(stack + [e]) == Nodes(e.node) + NodesLeft(stack)
  {
    assert (stack + [e])[..|stack|] == stack;
  }

  // Until a defect is found, what is left holds every defect of the record.
  ghost predicate OnTrack(reason: Option<Reason>, left: seq<Reason>, all: seq<Reason>) {
    if reason.Some? then reason == First(all) else left == all
  }

  lemma Regroup(a: seq<Reason>, b: seq<Reason>, c: seq<Reason>)
    ensures (a + b) + c == a + (b + c)
  {
  }

  lemma StaysOnTrack(reason: Option<Reason>, own: seq<Reason>, left: seq<Reason>, all: seq<Reason>)
    requires OnTrack(reason, own + left, all)
    ensures OnTrack(if reason.Some? then reason else First(own), left, all)
  {
  }

  // The first reason found stays the reason.
  method Note(reason: Option<Reason>, n: Node, depth: nat) returns (r: Option<Reason>)
    ensures r == if reason.Some? then reason else First(Own(n, depth))
  {
    r := reason;
    if reason.None? {
      if depth > MAX_JSON_NESTING {
        r := Some(NestingTooDeep);
      } else if n.Float? {
        r := Some(FloatValue);
      }
    }
  }

  // Push the children last to first, so that the first is popped first.
  method PushChildren(stack: seq<Entry>, n: Node, depth: nat) returns (r: seq<Entry>)
    ensures ObjectsLeft(r) == ObjectsFrom(n, 0) + ObjectsLeft(stack)
    ensures DefectsLeft(r) == DefectsFrom(n, 0, depth) + DefectsLeft(stack)
    ensures NodesLeft(r) == NodesFrom(n, 0) + NodesLeft(stack)
  {
    r := stack;
    var children := match n case List(items) => items case Object(values) => values case _ => [];
    var i := |children|;
    while i > 0
      invariant 0 <= i <= |children| == |Children(n)|
      invariant ObjectsLeft(r) == ObjectsFrom(n, i) + ObjectsLeft(stack)
      invariant DefectsLeft(r) == DefectsFrom(n, i, depth) + DefectsLeft(stack)
      invariant NodesLeft(r) == NodesFrom(n, i) + NodesLeft(stack)
    {
      i := i - 1;
      Pushed(r, Entry(Children(n)[i], depth));
      Regroup(Defects(Children(n)[i], depth), DefectsFrom(n, i + 1, depth), DefectsLeft(stack));
      r := r + [Entry(children[i], depth)];
    }
  }

  datatype Scanned = Verdict(reason: Option<Reason>) | PayloadTooLarge

  // The counter is shared by every record of a payload.
  class Counter {
    var count: nat

    constructor ()
      ensures count == 0
    {
      count := 0;
    }
  }

  /** The explicit stack computes what the recursive definition says: every
      object is counted whatever defects the record has, the cap falls exactly
      when the payload-wide total passes it, and the verdict is the record's
      first defect in document order. */
  method ScanRecord(value: Node, counter: Counter) returns (r: Scanned)
    modifies counter
    ensures r.PayloadTooLarge? <==>
      Objects(value) > 0 && old(counter.count) + Objects(value) > 10_000
    ensures !r.PayloadTooLarge? ==> counter.count == old(counter.count) + Objects(value)
    ensures !r.PayloadTooLarge? ==> r.reason == First(Defects(value, 1))
  {
    var reason: Option<Reason> := None;
    var stack := [Entry(value, 1)];
    Pushed([], Entry(value, 1));
    assert [] + [Entry(value, 1)] == stack;
    while stack != []
      invariant counter.count + ObjectsLeft(stack) == old(counter.count) + Objects(value)
      invariant counter.count > old(counter.count) ==> counter.count <= MAX_PAYLOAD_OBJECTS
      invariant counter.count >= old(counter.count)
      invariant OnTrack(reason, DefectsLeft(stack), Defects(value, 1))
      decreases NodesLeft(stack)
    {
      var top := stack[|stack| - 1];
      stack := stack[..|stack| - 1];
      var n := top.node;
      if n.Object? {
        counter.count := counter.count + 1;
        if counter.count > MAX_PAYLOAD_OBJECTS { return PayloadTooLarge; }
      }
      ghost var found, below := reason, stack;
      reason := Note(reason, n, top.depth);
      stack := PushChildren(stack, n, top.depth + 1);
      Regroup(Own(n, top.depth), DefectsFrom(n, 0, top.depth + 1), DefectsLeft(below));
      StaysOnTrack(found, Own(n, top.depth), DefectsLeft(stack), Defects(value, 1));
    }
    return Verdict(reason);
  }

  // ---- One payload ----

  // A line is blank, decodes, or does not.
  datatype Line = Blank | Broken | Decoded(value: Node)

  datatype Boundary = Boundary(number: nat, reason: Option<Reason>)

  datatype Parsed = Boundaries(records: seq<Boundary>) | TooLarge

  function LineObjects(l: Line): nat {
    if l.Decoded? then Objects(l.value) else 0
  }

  function TotalObjects(lines: seq<Line>): nat {
    if lines == [] then 0 else TotalObjects(lines[..|lines| - 1]) + LineObjects(lines[|lines| - 1])
  }

  // Blank lines establish no record and take no number.
  function BoundariesOf(lines: seq<Line>): seq<Boundary> {
    if lines == [] then []
    else
      var before, l := BoundariesOf(lines[..|lines| - 1]), lines[|lines| - 1];
      match l
      case Blank => before
      case Broken => before + [Boundary(|before| + 1, Some(NotJson))]
      case Decoded(value) => before + [Boundary(|before| + 1, First(Defects(value, 1)))]
  }

  lemma {:induction false} TotalGrows(lines: seq<Line>, i: nat)
    requires i <= |lines|
    ensures TotalObjects(lines[..i]) <= TotalObjects(lines)
  {
    if i < |lines| {
      assert lines[..|lines| - 1][..i] == lines[..i];
      TotalGrows(lines[..|lines| - 1], i);
    } else {
      assert lines[..i] == lines;
    }
  }

  /** One counter runs through the whole payload: it is refused exactly when all
      its decoded records together exceed the cap, and otherwise every line
      that is not blank is one numbered record with its own verdict. */
  method ParsePayload(lines: seq<Line>) returns (r: Parsed)
    ensures r.TooLarge? <==> TotalObjects(lines) > 10_000
    ensures r.Boundaries? ==> r.records == BoundariesOf(lines)
  {
    var counter := new Counter();
    var number := 0;
    var records: seq<Boundary> := [];
    for i := 0 to |lines|
      invariant counter.count == TotalObjects(lines[..i]) <= MAX_PAYLOAD_OBJECTS
      invariant records == BoundariesOf(lines[..i]) && number == |records|
    {
      assert lines[..i + 1][..i] == lines[..i];
      TotalGrows(lines, i + 1);
      if lines[i].Blank? { continue; }
      number := number + 1;
      if lines[i].Broken? {
        records := records + [Boundary(number, Some(NotJson))];
      } else {
        var scanned := ScanRecord(lines[i].value, counter);
        if scanned.PayloadTooLarge? { return TooLarge; }
        records := records + [Boundary(number, scanned.reason)];
      }
    }
    assert lines[..|lines|] == lines;
    return Boundaries(records);
  }

  // ---- Passes over a payload that may be rewritten in between ----

  // Equal digests mean equal content.
  datatype PassDigest = ContentOf(lines: seq<Line>)

  datatype Replayed = Yielded(records: seq<Boundary>) | Changed | Oversized

  class PayloadRecords {
    const total: nat
    const stat: (int, int)
    const digest: PassDigest

    // The digest is of what the establishing pass read.
    ghost predicate Established() {
      TotalObjects(digest.lines) <= 10_000 && total == |BoundariesOf(digest.lines)|
    }

    constructor (total: nat, stat: (int, int), digest: PassDigest)
      ensures this.total == total && this.stat == stat && this.digest == digest
    {
      this.total, this.stat, this.digest := total, stat, digest;
    }

    /** A replay that runs to its end has yielded exactly the boundaries that
        were established; any rewrite in between is reported as one. */
    method Replay(eager: (int, int), late: (int, int), lines: seq<Line>) returns (r: Replayed)
      requires Established()
      ensures r.Yielded? ==> r.records == BoundariesOf(digest.lines) && |r.records| == total
      ensures r.Yielded? <==> eager == stat && late == stat && lines == digest.lines
      ensures r.Oversized? ==> lines != digest.lines
    {
      if eager != stat || late != stat { return Changed; }
      var parsed := ParsePayload(lines);
      if parsed.TooLarge? { return Oversized; }
      if ContentOf(lines) != digest { return Changed; }
      return Yielded(parsed.records);
    }
  }

  // Establish the boundaries once; the payload may have moved while they were read.
  method Establish(before: (int, int), lines: seq<Line>, after: (int, int)) returns (r: Option<PayloadRecords>)
    ensures r.Some? <==> TotalObjects(lines) <= 10_000 && before == after
    ensures r.Some? ==> r.value.Established() && r.value.digest == ContentOf(lines) && r.value.stat == before
  {
    var parsed := ParsePayload(lines);
    if parsed.TooLarge? || after != before { return None; }
    var records := new PayloadRecords(|parsed.records|, before, ContentOf(lines));
    return Some(records);
  }
}
