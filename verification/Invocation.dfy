// One logical invocation: at most two request rounds, each with bounded
// physical attempts under one deadline, every transition its own transaction.
module Invocation {
  import opened Basics
  import opened Preflight
  import opened Telemetry

  // A physical result together with the adapter's classification of it.
  datatype Raw = Raw(message: Option<Bytes>, failure: Option<Code>, retryable: bool)

  datatype Answer = Delivered(raw: Raw) | OsFailure | RefusedBy(code: Code) | RunnerInterrupted

  datatype Validation<Out> = Valid(output: Out) | Invalid | EnrichmentFails | ValidationInterrupted

  // Everything outside the service: the n-th clock reading, the n-th answer of
  // the runner and the tokens billed for it, the n-th backoff, and the verdict
  // on a message in each round.
  datatype World<!Out> = World(
    monotonic: nat -> real, runner: nat -> Answer, billed: nat -> (nat, nat), connectionFailure: Raw,
    backoff: nat -> real, validate: (nat, Bytes) -> Validation<Out>)

  datatype Request<!Out> = Request(
    run: string, index: nat, bytes: nat, secret: bool, budgets: Budgets, capability: Option<Code>,
    finishRun: bool, outputs: seq<string>, world: World<Out>)

  datatype Outcome<Out> = Validated(output: Out) | LlmError(code: Code) | Cancelled | KeyboardInterrupt | OtherError

  // What a run of attempts leaves behind: the attempts, the clock readings used,
  // and the two retry counters of the call row.
  datatype Progress = Progress(attempts: seq<Attempt>, ticks: nat, transport: nat, schema: nat)

  // One deadline for all rounds, from the first reading of the clock.
  function Deadline<Out>(rq: Request<Out>): real {
    rq.world.monotonic(0) + rq.budgets.deadlineSeconds
  }

  // ---- Rows ----

  function FailRows<B>(db: Db<B>, run: string, index: nat, code: Code): Option<Db<B>> {
    var d := FinishCall(db, run, index, FailedWith(code));
    if d.None? then None else FinishRun(d.value, run, Broken(code))
  }

  function CreateRows<B>(db: Db<B>, run: string, index: nat): Option<Db<B>> {
    var d := if index == 1 then CreateRun(db, run) else RequireRunning(db, run);
    if d.None? then None else CreateCall(d.value, run, index)
  }

  function CompleteRows<B, Out>(db: Db<B>, rq: Request<Out>, replaced: Option<B>): Option<Db<B>> {
    if replaced.None? then None
    else
      var d := FinishCall(db.(business := replaced.value), rq.run, rq.index, Succeeded);
      if d.None? then None
      else if rq.finishRun then FinishRun(d.value, rq.run, Finished(rq.outputs))
      else RequireRunning(d.value, rq.run)
  }

  function CommitFailedRows<B>(db: Db<B>, run: string, index: nat): Option<Db<B>> {
    var d := FinishCall(db, run, index, Succeeded);
    if d.None? then None else FinishRun(d.value, run, Broken(BusinessCommitFailed))
  }

  // The run is broken and its active call failed with the same code; nothing else changes.
  ghost predicate BothFailed<B>(a: Db<B>, b: Db<B>, run: string, index: nat, code: Code) {
    && run in a.runs && a.runs[run] == Running && b.runs == a.runs[run := Broken(code)] && b.business == a.business
    && 1 <= index <= |CallsOf(a, run)| && CallsOf(a, run)[index - 1].state == Active
    && b.calls == a.calls[run := CallsOf(a, run)[index - 1 := CallsOf(a, run)[index - 1].(state := FailedWith(code))]]
  }

  lemma FailRowsMeans<B(!new)>(a: Db<B>, run: string, index: nat, code: Code)
    ensures forall b :: FailRows(a, run, index, code) == Some(b) <==> BothFailed(a, b, run, index, code)
  {
  }

  // The rows of an invocation in flight, with its counters.
  ghost predicate InFlight<B>(base: Db<B>, d: Db<B>, run: string, index: nat, p: Progress) {
    && 1 <= index <= |CallsOf(base, run)| && run in base.runs && base.runs[run] == Running
    && d == SetCall(base, run, index, Call(Active, p.transport, p.schema))
  }

  // The rows of calls are those of `base` but for this one.
  ghost predicate CallIs<B>(base: Db<B>, d: Db<B>, run: string, index: nat, c: Call) {
    1 <= index <= |CallsOf(base, run)| && d.calls == base.calls[run := CallsOf(base, run)[index - 1 := c]]
  }

  // Business data changes only in the transaction that finishes the run.
  ghost predicate Coupled<B(!new)>(base: Db<B>, d: Db<B>, run: string, mayFinish: bool) {
    && (run in d.runs && d.runs[run].Finished? ==> mayFinish)
    && (!(run in d.runs && d.runs[run].Finished?) ==> d.business == base.business)
    && (forall r | r != run :: (r in d.runs <==> r in base.runs) && (r in d.runs ==> d.runs[r] == base.runs[r]))
  }

  ghost predicate AllCoupled<B(!new)>(base: Db<B>, h: seq<Db<B>>, from: nat, run: string, mayFinish: bool) {
    forall k | from <= k < |h| :: Coupled(base, h[k], run, mayFinish)
  }

  // No attempt starts at or after the deadline, and each is billed what the world bills it.
  ghost predicate InTime<Out>(w: World<Out>, attempts: seq<Attempt>, deadline: real) {
    forall n: nat | n < |attempts| ::
      && attempts[n].startedAt < deadline
      && (attempts[n].inputTokens, attempts[n].outputTokens) == w.billed(n)
  }

  // ---- One terminal failure ----

  lemma CallFinished<B(!new)>(base: Db<B>, d: Db<B>, run: string, index: nat, p: Progress, state: CallState)
    requires 1 <= index <= |CallsOf(base, run)|
    requires d.calls == SetCall(base, run, index, Call(Active, p.transport, p.schema)).calls
    ensures FinishCall(d, run, index, state).Some?
    ensures CallIs(base, FinishCall(d, run, index, state).value, run, index, Call(state, p.transport, p.schema))
  {
    var calls := CallsOf(base, run);
    assert CallsOf(d, run) == calls[index - 1 := Call(Active, p.transport, p.schema)];
    assert CallsOf(d, run)[index - 1 := Call(state, p.transport, p.schema)]
        == calls[index - 1 := Call(state, p.transport, p.schema)];
  }

  method Fail<B(!new), Out(!new)>(s: Session<B>, rq: Request<Out>, code: Code, ghost base: Db<B>, ghost p: Progress)
    returns (outcome: Outcome<Out>)
    requires s.Valid() && InFlight(base, s.db, rq.run, rq.index, p)
    modifies s
    ensures s.Valid() && old(s.history) <= s.history
    ensures AllCoupled(base, s.history, |old(s.history)|, rq.run, false)
    ensures outcome == LlmError(code) || outcome == OtherError || outcome == KeyboardInterrupt
    ensures outcome == LlmError(code) ==>
              s.db.runs == base.runs[rq.run := Broken(code)] && s.db.business == base.business
    ensures outcome == LlmError(code) ==>
              CallIs(base, s.db, rq.run, rq.index, Call(FailedWith(code), p.transport, p.schema))
    ensures outcome == OtherError ==> s.db == old(s.db)
    ensures outcome == KeyboardInterrupt ==>
              s.db == old(s.db) || BothFailed(old(s.db), s.db, rq.run, rq.index, code)
    ensures old(s.Calm()) ==> s.Calm() && outcome == LlmError(code)
  {
    CallFinished(base, s.db, rq.run, rq.index, p, FailedWith(code));
    FailRowsMeans(s.db, rq.run, rq.index, code);
    var tx := s.Transact(FailRows(s.db, rq.run, rq.index, code));
    return match tx case Committed => LlmError(code) case Raised => OtherError case Interrupted => KeyboardInterrupt;
  }

  // ---- One physical attempt ----

  // At the top of each loop every attempt made so far has its retry counted.
  ghost predicate Between(p: Progress) {
    |p.attempts| == p.transport + p.schema
  }

  // A terminal failure: both rows carry the code, and the retries counted are
  // exactly those executed unless the deadline cut off one already counted.
  ghost predicate Ending<B(!new)>(base: Db<B>, d: Db<B>, run: string, index: nat, p: Progress, code: Code, late: bool) {
    && run in d.runs && d.runs[run] == Broken(code) && d.business == base.business
    && CallIs(base, d, run, index, Call(FailedWith(code), p.transport, p.schema))
    && |p.attempts| + (if late then 1 else 0) == p.transport + p.schema + 1
    && (late ==> code == TransportTimeout)
  }

  datatype Physical<Out> = Success(bytes: Option<Bytes>) | Again | Over(outcome: Outcome<Out>, late: bool)

  function Counted(p: Progress, kind: RetryKind): Progress {
    match kind
    case Transport => p.(transport := p.transport + 1)
    case Schema => p.(schema := p.schema + 1)
  }

  lemma RetryCounted<B(!new)>(base: Db<B>, d: Db<B>, run: string, index: nat, p: Progress, kind: RetryKind)
    requires InFlight(base, d, run, index, p)
    ensures IncrementRetry(d, run, index, kind).Some?
    ensures InFlight(base, IncrementRetry(d, run, index, kind).value, run, index, Counted(p, kind))
  {
    var next, q := IncrementRetry(d, run, index, kind).value, Counted(p, kind);
    assert CallsOf(next, run) == CallsOf(base, run)[index - 1 := Call(Active, q.transport, q.schema)];
    assert next.calls == SetCall(base, run, index, Call(Active, q.transport, q.schema)).calls;
  }

  // What every step of a round promises about how it can end.
  ghost predicate EndsWell<B(!new), Out(!new)>(base: Db<B>, d: Db<B>, rq: Request<Out>, p: Progress, o: Outcome<Out>,
                                               late: bool)
  {
    && (o.LlmError? ==> Ending(base, d, rq.run, rq.index, p, o.code, late))
    && (o.Cancelled? ==> !late && Ending(base, d, rq.run, rq.index, p, CancelledCode, false))
    && !o.Validated?
  }

  // The physical result of the n-th attempt; an operating-system failure has a fixed one.
  function RawOf<Out>(w: World<Out>, n: nat): Option<Raw> {
    match w.runner(n)
    case Delivered(raw) => Some(raw)
    case OsFailure => Some(w.connectionFailure)
    case RefusedBy(_) => None
    case RunnerInterrupted => None
  }

  // The n-th attempt was answered, without a classified failure, by this message.
  predicate Answered<Out>(w: World<Out>, n: nat, message: Option<Bytes>) {
    RawOf(w, n).Some? && RawOf(w, n).value.failure.None? && RawOf(w, n).value.message == message
  }

  // ---- How an invocation goes when no transaction fails and nothing interrupts the service ----

  // Where a classified failure leads. A retry is counted whenever one is
  // allowed, but it is made only if the backoff ends before the deadline:
  // otherwise the counter keeps a retry that never ran.
  function Settled<Out>(rq: Request<Out>, raw: Raw, deadline: real, mayRetry: bool, p: Progress)
    : (Physical<Out>, Progress)
    requires raw.failure.Some?
  {
    if raw.failure.value == CancelledCode then (Over(Cancelled, false), p)
    else if !raw.retryable || !mayRetry then (Over(LlmError(raw.failure.value), false), p)
    else
      var q := p.(transport := p.transport + 1, ticks := p.ticks + 1);
      if rq.world.monotonic(p.ticks) + rq.world.backoff(p.ticks) >= deadline
      then (Over(LlmError(TransportTimeout), true), q) else (Again, q)
  }

  // One turn of the transport loop.
  function Turn<Out>(rq: Request<Out>, deadline: real, mayRetry: bool, p: Progress): (t: (Physical<Out>, Progress))
    ensures t.0.Again? ==> mayRetry
  {
    var now := rq.world.monotonic(p.ticks);
    if deadline <= now then (Over(LlmError(TransportTimeout), true), p.(ticks := p.ticks + 1))
    else
      var n := |p.attempts|;
      var made := Attempt(now, rq.world.billed(n).0, rq.world.billed(n).1);
      var q := p.(ticks := p.ticks + 1, attempts := p.attempts + [made]);
      var answer := rq.world.runner(n);
      if answer.RunnerInterrupted? then (Over(KeyboardInterrupt, false), q)
      else if answer.RefusedBy? then (Over(LlmError(answer.code), false), q)
      else
        var raw := RawOf(rq.world, n).value;
        if raw.failure.None? then (Success(raw.message), q) else Settled(rq, raw, deadline, mayRetry, q)
  }

  // One round, from its attempt `physical` on.
  function RoundOf<Out>(rq: Request<Out>, deadline: real, physical: nat, p: Progress): (t: (Physical<Out>, Progress))
    requires physical < rq.budgets.transportAttemptCap
    ensures !t.0.Again?
    decreases rq.budgets.transportAttemptCap - physical
  {
    var t := Turn(rq, deadline, physical + 1 < rq.budgets.transportAttemptCap, p);
    if t.0.Again? then RoundOf(rq, deadline, physical + 1, t.1) else t
  }

  // The first response was invalid: there is one more round.
  predicate Revises<Out>(rq: Request<Out>, message: Option<Bytes>, round: nat) {
    message.Some? && round == 0 && rq.world.validate(round, message.value).Invalid?
  }

  // Where a delivered message leads when it earns no revision.
  function Judgement<B, Out>(rq: Request<Out>, persist: (B, Out) -> Option<B>, business: B, message: Option<Bytes>,
                             round: nat): Outcome<Out>
  {
    if message.None? then LlmError(TransportProviderError)
    else
      match rq.world.validate(round, message.value)
      case ValidationInterrupted => KeyboardInterrupt
      case EnrichmentFails => LlmError(DeterministicEnrichmentFailed)
      case Invalid => LlmError(ResponseValidationFailed)
      case Valid(output) =>
        if persist(business, output).Some? then Validated(output) else LlmError(BusinessCommitFailed)
  }

  // The rounds from `round` on: the outcome, what was attempted and counted,
  // and whether the deadline cut off a retry already counted.
  datatype Course<Out> = Course(outcome: Outcome<Out>, p: Progress, late: bool)

  function RoundsOf<B, Out>(rq: Request<Out>, persist: (B, Out) -> Option<B>, business: B, deadline: real, round: nat,
                            p: Progress): Course<Out>
    requires round < 2 && rq.budgets.transportAttemptCap > 0
    decreases 2 - round
  {
    var t := RoundOf(rq, deadline, 0, p);
    if t.0.Over? then Course(t.0.outcome, t.1, t.0.late)
    else if Revises(rq, t.0.bytes, round)
    then RoundsOf(rq, persist, business, deadline, round + 1, t.1.(schema := t.1.schema + 1))
    else Course(Judgement(rq, persist, business, t.0.bytes, round), t.1, false)
  }

  // What refuses the call before its first attempt.
  function Barred<Out>(rq: Request<Out>): Option<Code> {
    var verdict := PreflightCall(rq.bytes, rq.secret, rq.budgets);
    if rq.capability.Some? then rq.capability else if verdict.Refused? then Some(verdict.code) else None
  }

  // An invocation once its rows exist: preflight, then the rounds under one
  // deadline; an interrupt from the runner or the validator cancels it.
  function CourseOf<B, Out>(rq: Request<Out>, persist: (B, Out) -> Option<B>, business: B): Course<Out> {
    if Barred(rq) == Some(CancelledCode) then Course(Cancelled, Progress([], 0, 0, 0), false)
    else if Barred(rq).Some? then Course(LlmError(Barred(rq).value), Progress([], 0, 0, 0), false)
    else
      var c := RoundsOf(rq, persist, business, Deadline(rq), 0, Progress([], 1, 0, 0));
      c.(outcome := if c.outcome.KeyboardInterrupt? then Cancelled else c.outcome)
  }

  // ---- What is known of every such course ----

  lemma CourseNotInterrupted<B, Out>(rq: Request<Out>, persist: (B, Out) -> Option<B>, business: B)
    ensures !CourseOf(rq, persist, business).outcome.KeyboardInterrupt?
  {
  }

  // The retries counted are the attempts repeated, or one more when the deadline cut the last one off.
  predicate Tallied(p: Progress, late: bool) {
    |p.attempts| + (if late then 1 else 0) == p.transport + p.schema + 1
  }

  lemma TurnTallied<Out>(rq: Request<Out>, deadline: real, mayRetry: bool, p: Progress)
    requires Between(p)
    ensures var t := Turn(rq, deadline, mayRetry, p);
            if t.0.Again? then Between(t.1) else Tallied(t.1, t.0.Over? && t.0.late)
  {
  }

  lemma {:induction false} RoundTallied<Out>(rq: Request<Out>, deadline: real, physical: nat, p: Progress)
    requires physical < rq.budgets.transportAttemptCap && Between(p)
    ensures var t := RoundOf(rq, deadline, physical, p); Tallied(t.1, t.0.Over? && t.0.late)
    decreases rq.budgets.transportAttemptCap - physical
  {
    var t := Turn(rq, deadline, physical + 1 < rq.budgets.transportAttemptCap, p);
    TurnTallied(rq, deadline, physical + 1 < rq.budgets.transportAttemptCap, p);
    if t.0.Again? { RoundTallied(rq, deadline, physical + 1, t.1); }
  }

  lemma {:induction false} RoundsTallied<B, Out>(rq: Request<Out>, persist: (B, Out) -> Option<B>, business: B,
                                                 deadline: real, round: nat, p: Progress)
    requires round < 2 && rq.budgets.transportAttemptCap > 0 && Between(p)
    ensures var c := RoundsOf(rq, persist, business, deadline, round, p); Tallied(c.p, c.late)
    decreases 2 - round
  {
    RoundTallied(rq, deadline, 0, p);
    var t := RoundOf(rq, deadline, 0, p);
    if !t.0.Over? && Revises(rq, t.0.bytes, round) {
      RoundsTallied(rq, persist, business, deadline, round + 1, t.1.(schema := t.1.schema + 1));
    }
  }

  // ---- When the retry counters are exact ----

  // Where an attempt stands: its round, its place in it, and the clock reading before it.
  datatype Spot = Spot(round: nat, physical: nat, tick: nat)

  // The n-th attempt fails in a way that may be retried.
  predicate Retryable<Out>(w: World<Out>, n: nat) {
    && RawOf(w, n).Some? && RawOf(w, n).value.failure.Some? && RawOf(w, n).value.retryable
    && RawOf(w, n).value.failure.value != CancelledCode
  }

  // The attempt that the n-th one calls for, whatever the clock says: a retry
  // after one more reading, a revision at once, or none.
  function Next<Out>(rq: Request<Out>, n: nat, at: Spot): Option<Spot> {
    if Retryable(rq.world, n) && at.physical + 1 < rq.budgets.transportAttemptCap
    then Some(Spot(at.round, at.physical + 1, at.tick + 2))
    else if RawOf(rq.world, n).Some? && Answered(rq.world, n, RawOf(rq.world, n).value.message)
            && Revises(rq, RawOf(rq.world, n).value.message, at.round)
    then Some(Spot(at.round + 1, 0, at.tick + 1))
    else None
  }

  // Where the n-th attempt stands, if the answers lead to it in time or not.
  function SpotOf<Out>(rq: Request<Out>, n: nat): Option<Spot> {
    if n == 0 then Some(Spot(0, 0, 1))
    else if SpotOf(rq, n - 1).None? then None
    else Next(rq, n - 1, SpotOf(rq, n - 1).value)
  }

  // The deadline passes between the n-th attempt and the one it calls for: at the
  // end of the backoff of a retry, or when the next attempt would start.
  predicate TooLate<Out>(rq: Request<Out>, deadline: real, n: nat, at: Spot) {
    && Next(rq, n, at).Some?
    && (|| (Retryable(rq.world, n) && rq.world.monotonic(at.tick + 1) + rq.world.backoff(at.tick + 1) >= deadline)
        || rq.world.monotonic(Next(rq, n, at).value.tick) >= deadline)
  }

  predicate CutAt<Out>(rq: Request<Out>, n: nat) {
    SpotOf(rq, n).Some? && TooLate(rq, Deadline(rq), n, SpotOf(rq, n).value)
  }

  // The first attempt is in time, and some attempt calls for another one too late.
  ghost predicate CutOff<Out>(rq: Request<Out>) {
    rq.world.monotonic(1) < Deadline(rq) && exists n: nat :: CutAt(rq, n)
  }

  function Repeated(p: Progress): nat {
    if p.attempts == [] then 0 else |p.attempts| - 1
  }

  // The same condition, step by step.
  predicate CutFrom<Out>(rq: Request<Out>, deadline: real, n: nat, at: Spot)
    requires at.round < 2 && at.physical < rq.budgets.transportAttemptCap
    decreases 2 - at.round, rq.budgets.transportAttemptCap - at.physical
  {
    && Next(rq, n, at).Some?
    && (TooLate(rq, deadline, n, at) || CutFrom(rq, deadline, n + 1, Next(rq, n, at).value))
  }

  lemma {:induction false} SpotsHaveNoGaps<Out>(rq: Request<Out>, n: nat, k: nat)
    requires n <= k && SpotOf(rq, k).Some?
    ensures SpotOf(rq, n).Some?
    decreases k
  {
    if n < k { SpotsHaveNoGaps(rq, n, k - 1); }
  }

  lemma {:induction false} CutFromMeans<Out>(rq: Request<Out>, n: nat, at: Spot)
    requires at.round < 2 && at.physical < rq.budgets.transportAttemptCap && SpotOf(rq, n) == Some(at)
    ensures CutFrom(rq, Deadline(rq), n, at) <==> exists k: nat :: k >= n && CutAt(rq, k)
    decreases 2 - at.round, rq.budgets.transportAttemptCap - at.physical
  {
    if Next(rq, n, at).Some? {
      CutFromMeans(rq, n + 1, Next(rq, n, at).value);
      assert TooLate(rq, Deadline(rq), n, at) ==> CutAt(rq, n);
    }
    forall k: nat | k >= n && CutAt(rq, k) ensures CutFrom(rq, Deadline(rq), n, at) {
      if k > n { SpotsHaveNoGaps(rq, n + 1, k); }
    }
  }

  // The rest of a course from its attempt `physical` of `round` on.
  function RestOf<B, Out>(rq: Request<Out>, persist: (B, Out) -> Option<B>, business: B, deadline: real, round: nat,
                          physical: nat, p: Progress): Course<Out>
    requires round < 2 && physical < rq.budgets.transportAttemptCap
  {
    var t := RoundOf(rq, deadline, physical, p);
    if t.0.Over? then Course(t.0.outcome, t.1, t.0.late)
    else if Revises(rq, t.0.bytes, round)
    then RoundsOf(rq, persist, business, deadline, round + 1, t.1.(schema := t.1.schema + 1))
    else Course(Judgement(rq, persist, business, t.0.bytes, round), t.1, false)
  }

  // What the first turn of it does.
  lemma TurnLeads<Out>(rq: Request<Out>, deadline: real, round: nat, physical: nat, p: Progress)
    requires round < 2 && physical < rq.budgets.transportAttemptCap
    ensures var n, at := |p.attempts|, Spot(round, physical, p.ticks);
            var t := Turn(rq, deadline, physical + 1 < rq.budgets.transportAttemptCap, p);
            if rq.world.monotonic(p.ticks) >= deadline then t.0.Over? && t.0.late && t.1.attempts == p.attempts
            else
              && |t.1.attempts| == n + 1
              && (t.0.Again? ==> Next(rq, n, at) == Some(Spot(round, physical + 1, t.1.ticks)))
              && (t.0.Again? ==> (TooLate(rq, deadline, n, at) <==> rq.world.monotonic(t.1.ticks) >= deadline))
              && (t.0.Over? ==> (t.0.late <==> TooLate(rq, deadline, n, at)))
              && (t.0.Over? && !t.0.late ==> Next(rq, n, at).None?)
              && (t.0.Success? ==> t.1.ticks == p.ticks + 1 && Answered(rq.world, n, t.0.bytes))
  {
  }

  // A course from the given attempt on is late exactly when it is cut off, at this attempt or a later one.
  predicate AsCut<Out>(rq: Request<Out>, deadline: real, round: nat, physical: nat, p: Progress, c: Course<Out>)
    requires round < 2 && physical < rq.budgets.transportAttemptCap
  {
    if rq.world.monotonic(p.ticks) >= deadline then c.late && c.p.attempts == p.attempts
    else
      && (c.late <==> CutFrom(rq, deadline, |p.attempts|, Spot(round, physical, p.ticks)))
      && |c.p.attempts| > |p.attempts|
  }

  lemma RetryCut<Out>(rq: Request<Out>, deadline: real, round: nat, physical: nat, p: Progress, c: Course<Out>)
    requires round < 2 && physical + 1 < rq.budgets.transportAttemptCap
    requires var t := Turn(rq, deadline, true, p); t.0.Again? && AsCut(rq, deadline, round, physical + 1, t.1, c)
    ensures AsCut(rq, deadline, round, physical, p, c)
  {
    TurnLeads(rq, deadline, round, physical, p);
  }

  lemma RevisionCut<Out>(rq: Request<Out>, deadline: real, physical: nat, p: Progress, c: Course<Out>)
    requires physical < rq.budgets.transportAttemptCap
    requires var t := Turn(rq, deadline, physical + 1 < rq.budgets.transportAttemptCap, p);
             && t.0.Success? && Revises(rq, t.0.bytes, 0)
             && AsCut(rq, deadline, 1, 0, t.1.(schema := t.1.schema + 1), c)
    ensures AsCut(rq, deadline, 0, physical, p, c)
  {
    TurnLeads(rq, deadline, 0, physical, p);
  }

  lemma EndCut<Out>(rq: Request<Out>, deadline: real, round: nat, physical: nat, p: Progress, c: Course<Out>)
    requires round < 2 && physical < rq.budgets.transportAttemptCap
    requires var t := Turn(rq, deadline, physical + 1 < rq.budgets.transportAttemptCap, p);
             && (t.0.Over? || (t.0.Success? && !Revises(rq, t.0.bytes, round)))
             && c.p == t.1 && c.late == (t.0.Over? && t.0.late)
    ensures AsCut(rq, deadline, round, physical, p, c)
  {
    TurnLeads(rq, deadline, round, physical, p);
  }

  lemma {:induction false} LateIffCut<B, Out>(rq: Request<Out>, persist: (B, Out) -> Option<B>, business: B,
                                              deadline: real, round: nat, physical: nat, p: Progress)
    requires round < 2 && physical < rq.budgets.transportAttemptCap
    ensures AsCut(rq, deadline, round, physical, p, RestOf(rq, persist, business, deadline, round, physical, p))
    decreases 2 - round, rq.budgets.transportAttemptCap - physical
  {
    var c := RestOf(rq, persist, business, deadline, round, physical, p);
    var t := Turn(rq, deadline, physical + 1 < rq.budgets.transportAttemptCap, p);
    if t.0.Again? {
      LateIffCut(rq, persist, business, deadline, round, physical + 1, t.1);
      RetryCut(rq, deadline, round, physical, p, c);
    } else if t.0.Success? && Revises(rq, t.0.bytes, round) {
      LateIffCut(rq, persist, business, deadline, round + 1, 0, t.1.(schema := t.1.schema + 1));
      RevisionCut(rq, deadline, physical, p, c);
    } else {
      EndCut(rq, deadline, round, physical, p, c);
    }
  }

  /** The retry counters of the call count exactly the attempts repeated, unless
      the first attempt is in time and some later one that the answers call for,
      a retry or the revision, is not: its backoff ends at or past the deadline,
      or it would start there. */
  lemma CountsExactUnlessCutOff<B, Out>(rq: Request<Out>, persist: (B, Out) -> Option<B>, business: B)
    requires Barred(rq).None?
    ensures var c := CourseOf(rq, persist, business);
            c.p.transport + c.p.schema == Repeated(c.p) <==> !CutOff(rq)
  {
    UnlessBarred(rq);
    OpenCourse(rq, persist, business);
    RoundsExactUnlessCutOff(rq, persist, business);
  }

  lemma RoundsExactUnlessCutOff<B, Out>(rq: Request<Out>, persist: (B, Out) -> Option<B>, business: B)
    requires rq.budgets.transportAttemptCap > 0
    ensures var p := RoundsOf(rq, persist, business, Deadline(rq), 0, Progress([], 1, 0, 0)).p;
            p.transport + p.schema == Repeated(p) <==> !CutOff(rq)
  {
    RoundsTallied(rq, persist, business, Deadline(rq), 0, Progress([], 1, 0, 0));
    LateIffCutOff(rq, persist, business, Progress([], 1, 0, 0));
  }

  lemma LateIffCutOff<B, Out>(rq: Request<Out>, persist: (B, Out) -> Option<B>, business: B, p: Progress)
    requires rq.budgets.transportAttemptCap > 0 && p == Progress([], 1, 0, 0)
    ensures var c := RoundsOf(rq, persist, business, Deadline(rq), 0, p);
            if rq.world.monotonic(1) >= Deadline(rq) then c.late && c.p.attempts == []
            else (c.late <==> CutOff(rq)) && c.p.attempts != []
  {
    LateIffCut(rq, persist, business, Deadline(rq), 0, 0, p);
    CutFromMeans(rq, 0, Spot(0, 0, 1));
  }

  ghost predicate InGoodTime<Out>(rq: Request<Out>, deadline: real, from: nat) {
    && (forall t: nat | from <= t :: rq.world.monotonic(t) < deadline)
    && forall t: nat | from <= t :: rq.world.monotonic(t) + rq.world.backoff(t) < deadline
  }

  /** Enough time: with every reading and the end of every backoff before the
      deadline, the counters are exact. */
  lemma CountsExactInTime<B, Out>(rq: Request<Out>, persist: (B, Out) -> Option<B>, business: B)
    requires Barred(rq).None? && InGoodTime(rq, Deadline(rq), 1)
    ensures var c := CourseOf(rq, persist, business); c.p.transport + c.p.schema == |c.p.attempts| - 1
  {
    CountsExactUnlessCutOff(rq, persist, business);
    UnlessBarred(rq);
    OpenCourse(rq, persist, business);
    LateIffCutOff(rq, persist, business, Progress([], 1, 0, 0));
    assert forall n: nat :: !CutAt(rq, n);
  }

  /** While there is time, a failure that may be retried is, up to the attempt
      cap and no further: the last failure is the outcome. */
  lemma {:induction false} RetriesRunOut<Out>(rq: Request<Out>, deadline: real, physical: nat, p: Progress)
    requires physical < rq.budgets.transportAttemptCap && InGoodTime(rq, deadline, p.ticks)
    requires forall n: nat | |p.attempts| <= n < |p.attempts| + rq.budgets.transportAttemptCap - physical ::
               Retryable(rq.world, n)
    ensures var t := RoundOf(rq, deadline, physical, p);
            var last := |p.attempts| + rq.budgets.transportAttemptCap - physical - 1;
            && Retryable(rq.world, last)
            && t.0 == Over(LlmError(RawOf(rq.world, last).value.failure.value), false)
            && |t.1.attempts| == last + 1
            && t.1.transport == p.transport + rq.budgets.transportAttemptCap - physical - 1
    decreases rq.budgets.transportAttemptCap - physical
  {
    var t := Turn(rq, deadline, physical + 1 < rq.budgets.transportAttemptCap, p);
    assert Retryable(rq.world, |p.attempts|);
    if physical + 1 < rq.budgets.transportAttemptCap {
      RetriesRunOut(rq, deadline, physical + 1, t.1);
    }
  }

  // `k` failures that may be retried, then an answer: the round ends with it.
  lemma {:induction false} RetriesThenAnswer<Out>(rq: Request<Out>, deadline: real, physical: nat, p: Progress, k: nat,
                                                  bytes: Bytes)
    requires physical + k < rq.budgets.transportAttemptCap && InGoodTime(rq, deadline, p.ticks)
    requires forall n: nat | |p.attempts| <= n < |p.attempts| + k :: Retryable(rq.world, n)
    requires Answered(rq.world, |p.attempts| + k, Some(bytes))
    ensures var t := RoundOf(rq, deadline, physical, p);
            && t.0 == Success(Some(bytes)) && |t.1.attempts| == |p.attempts| + k + 1
            && t.1.transport == p.transport + k && t.1.schema == p.schema && t.1.ticks >= p.ticks
    decreases k
  {
    if k > 0 {
      var t := Turn(rq, deadline, physical + 1 < rq.budgets.transportAttemptCap, p);
      assert Retryable(rq.world, |p.attempts|);
      RetriesThenAnswer(rq, deadline, physical + 1, t.1, k - 1, bytes);
    }
  }

  /** In good time, a first message that arrives after `k` retries decides the
      call, unless it is invalid: then the message that arrives after `m` retries
      of the second round does, as the validator takes it in that round; a second
      invalid one ends the call. */
  lemma MessagesDecide<B, Out>(rq: Request<Out>, persist: (B, Out) -> Option<B>, business: B, k: nat, first: Bytes,
                               m: nat, second: Bytes)
    requires Barred(rq).None? && InGoodTime(rq, Deadline(rq), 1)
    requires k < rq.budgets.transportAttemptCap && m < rq.budgets.transportAttemptCap
    requires (forall n: nat | n < k :: Retryable(rq.world, n)) && Answered(rq.world, k, Some(first))
    requires forall n: nat | k < n <= k + m :: Retryable(rq.world, n)
    requires Answered(rq.world, k + m + 1, Some(second))
    ensures var c := CourseOf(rq, persist, business);
            if rq.world.validate(0, first).Invalid? then
              && |c.p.attempts| == k + m + 2 && c.p.transport == k + m && c.p.schema == 1
              && c.outcome == Decided(persist, business, rq.world.validate(1, second))
            else
              && |c.p.attempts| == k + 1 && c.p.transport == k && c.p.schema == 0
              && c.outcome == Decided(persist, business, rq.world.validate(0, first))
  {
    var p := Progress([], 1, 0, 0);
    RetriesThenAnswer(rq, Deadline(rq), 0, p, k, first);
    var q := RoundOf(rq, Deadline(rq), 0, p).1;
    if Revises(rq, Some(first), 0) {
      RetriesThenAnswer(rq, Deadline(rq), 0, q.(schema := 1), m, second);
    }
  }

  // A first message that arrives in time and asks for no revision decides the call.
  lemma FirstMessageDecides<B, Out>(rq: Request<Out>, persist: (B, Out) -> Option<B>, business: B, bytes: Bytes)
    requires rq.capability.None? && PreflightCall(rq.bytes, rq.secret, rq.budgets).Fits?
    requires rq.world.monotonic(1) < rq.world.monotonic(0) + rq.budgets.deadlineSeconds
    requires Answered(rq.world, 0, Some(bytes)) && !rq.world.validate(0, bytes).Invalid?
    ensures CourseOf(rq, persist, business).outcome == Decided(persist, business, rq.world.validate(0, bytes))
  {
    UnlessBarred(rq);
    OpenCourse(rq, persist, business);
  }

  // What a verdict that asks for no revision makes of a call.
  function Decided<B, Out>(persist: (B, Out) -> Option<B>, business: B, verdict: Validation<Out>): Outcome<Out> {
    match verdict
    case Valid(output) =>
      if persist(business, output).Some? then Validated(output) else LlmError(BusinessCommitFailed)
    case Invalid => LlmError(ResponseValidationFailed)
    case EnrichmentFails => LlmError(DeterministicEnrichmentFailed)
    case ValidationInterrupted => Cancelled
  }

  /** One such run: a single attempt fails, its retry is counted, and the
      backoff would end past the deadline, so the call row reports a retry of an
      attempt that was never repeated. */
  lemma LateRetryIsCounted<B, Out>(rq: Request<Out>, persist: (B, Out) -> Option<B>, business: B, failure: Code)
    requires Barred(rq).None? && rq.budgets.transportAttemptCap > 1 && failure != CancelledCode
    requires rq.world.runner(0) == Delivered(Raw(None, Some(failure), true))
    requires rq.world.monotonic(1) < Deadline(rq) <= rq.world.monotonic(2) + rq.world.backoff(2)
    ensures CutOff(rq)
    ensures var c := CourseOf(rq, persist, business);
            c.outcome == LlmError(TransportTimeout) && |c.p.attempts| == 1 && c.p.transport == 1 && c.p.schema == 0
  {
    assert SpotOf(rq, 0) == Some(Spot(0, 0, 1));
    assert CutAt(rq, 0);
  }

  method TryOnce<B(!new), Out(!new)>(s: Session<B>, rq: Request<Out>, deadline: real, mayRetry: bool, p0: Progress,
                                     ghost base: Db<B>)
    returns (r: Physical<Out>, p: Progress)
    requires s.Valid() && InFlight(base, s.db, rq.run, rq.index, p0) && Between(p0)
    requires InTime(rq.world, p0.attempts, deadline)
    modifies s
    ensures s.Valid() && old(s.history) <= s.history
    ensures AllCoupled(base, s.history, |old(s.history)|, rq.run, false)
    ensures |p.attempts| <= |p0.attempts| + 1 && InTime(rq.world, p.attempts, deadline) && p.schema == p0.schema
    ensures Turned(base, s.db, rq, r, p) && (r.Again? ==> mayRetry)
    ensures !r.Over? ==> |p.attempts| == |p0.attempts| + 1
    ensures old(s.Calm()) ==> s.Calm()
    ensures deadline <= rq.world.monotonic(p0.ticks) ==> r.Over? && r.late && p.attempts == p0.attempts
    ensures deadline > rq.world.monotonic(p0.ticks) ==>
      var billed := rq.world.billed(|p0.attempts|);
      p.attempts == p0.attempts + [Attempt(rq.world.monotonic(p0.ticks), billed.0, billed.1)]
    ensures old(s.Calm()) ==> (r, p) == Turn(rq, deadline, mayRetry, p0)
  {
    var now := rq.world.monotonic(p0.ticks);
    p := p0.(ticks := p0.ticks + 1);
    if deadline - now <= 0.0 {
      var o := Fail(s, rq, TransportTimeout, base, p);
      return Over(o, true), p;
    }
    var n := |p.attempts|;
    p := p.(attempts := p.attempts + [Attempt(now, rq.world.billed(n).0, rq.world.billed(n).1)]);
    var answer := rq.world.runner(n);
    if answer.RunnerInterrupted? { return Over(KeyboardInterrupt, false), p; }
    if answer.RefusedBy? {
      var o := Fail(s, rq, answer.code, base, p);
      return Over(o, false), p;
    }
    var raw := if answer.Delivered? then answer.raw else rq.world.connectionFailure;
    if raw.failure.None? { return Success(raw.message), p; }
    r, p := AfterFailure(s, rq, raw, deadline, mayRetry, p, base);
  }

  // A classified failure: cancellation, a counted retry with its backoff, or the end.
  method AfterFailure<B(!new), Out(!new)>(s: Session<B>, rq: Request<Out>, raw: Raw, deadline: real, mayRetry: bool,
                                          p0: Progress, ghost base: Db<B>)
    returns (r: Physical<Out>, p: Progress)
    requires s.Valid() && InFlight(base, s.db, rq.run, rq.index, p0) && raw.failure.Some?
    requires |p0.attempts| == p0.transport + p0.schema + 1
    modifies s
    ensures s.Valid() && old(s.history) <= s.history
    ensures AllCoupled(base, s.history, |old(s.history)|, rq.run, false)
    ensures p.attempts == p0.attempts && p.schema == p0.schema && !r.Success?
    ensures r.Again? ==> mayRetry && Between(p) && InFlight(base, s.db, rq.run, rq.index, p)
    ensures r.Over? ==> EndsWell(base, s.db, rq, p, r.outcome, r.late)
    ensures old(s.Calm()) ==> s.Calm() && (r, p) == Settled(rq, raw, deadline, mayRetry, p0)
  {
    p := p0;
    var code := raw.failure.value;
    if code == CancelledCode {
      var o := Fail(s, rq, code, base, p);
      r := Over(if o == LlmError(code) then Cancelled else o, false);
    } else if !raw.retryable || !mayRetry {
      var o := Fail(s, rq, code, base, p);
      r := Over(o, false);
    } else {
      r, p := Retry(s, rq, deadline, p, base);
    }
  }

  // The retry is counted first, and made if its backoff ends before the deadline.
  method Retry<B(!new), Out(!new)>(s: Session<B>, rq: Request<Out>, deadline: real, p0: Progress, ghost base: Db<B>)
    returns (r: Physical<Out>, p: Progress)
    requires s.Valid() && InFlight(base, s.db, rq.run, rq.index, p0)
    requires |p0.attempts| == p0.transport + p0.schema + 1
    modifies s
    ensures s.Valid() && old(s.history) <= s.history
    ensures AllCoupled(base, s.history, |old(s.history)|, rq.run, false)
    ensures p.attempts == p0.attempts && p.schema == p0.schema && !r.Success?
    ensures r.Again? ==> Between(p) && InFlight(base, s.db, rq.run, rq.index, p)
    ensures r.Over? ==> EndsWell(base, s.db, rq, p, r.outcome, r.late)
    ensures old(s.Calm()) ==> s.Calm() && p == p0.(transport := p0.transport + 1, ticks := p0.ticks + 1)
    ensures old(s.Calm()) ==>
              r == if rq.world.monotonic(p0.ticks) + rq.world.backoff(p0.ticks) >= deadline
                   then Over(LlmError(TransportTimeout), true) else Again
  {
    p := p0;
    RetryCounted(base, s.db, rq.run, rq.index, p, Transport);
    var tx := s.Transact(IncrementRetry(s.db, rq.run, rq.index, Transport));
    if tx == Raised { return Over(OtherError, false), p; }
    if tx == Interrupted { return Over(KeyboardInterrupt, false), p; }
    p := p.(transport := p.transport + 1);
    var now, delay := rq.world.monotonic(p.ticks), rq.world.backoff(p.ticks);
    p := p.(ticks := p.ticks + 1);
    if now + delay >= deadline {
      var o := Fail(s, rq, TransportTimeout, base, p);
      return Over(o, true), p;
    }
    var interrupted := s.Interruptible();
    if interrupted { return Over(KeyboardInterrupt, false), p; }
    return Again, p;
  }

  // ---- Rounds ----

  // What is known after a turn of the transport loop.
  ghost predicate Turned<B(!new), Out(!new)>(base: Db<B>, d: Db<B>, rq: Request<Out>, r: Physical<Out>, p: Progress) {
    match r
    case Again => Between(p) && InFlight(base, d, rq.run, rq.index, p)
    case Success(bytes) =>
      && InFlight(base, d, rq.run, rq.index, p) && |p.attempts| == p.transport + p.schema + 1
      && Answered(rq.world, |p.attempts| - 1, bytes)
    case Over(o, late) => EndsWell(base, d, rq, p, o, late)
  }

  method RunRound<B(!new), Out(!new)>(s: Session<B>, rq: Request<Out>, deadline: real, p0: Progress, ghost base: Db<B>)
    returns (r: Physical<Out>, p: Progress)
    requires s.Valid() && InFlight(base, s.db, rq.run, rq.index, p0) && Between(p0)
    requires InTime(rq.world, p0.attempts, deadline)
    requires rq.budgets.transportAttemptCap > 0
    modifies s
    ensures s.Valid() && old(s.history) <= s.history
    ensures AllCoupled(base, s.history, |old(s.history)|, rq.run, false)
    ensures |p.attempts| <= |p0.attempts| + rq.budgets.transportAttemptCap && InTime(rq.world, p.attempts, deadline)
    ensures p.schema == p0.schema && !r.Again?
    ensures Turned(base, s.db, rq, r, p)
    ensures old(s.Calm()) ==> s.Calm() && (r, p) == RoundOf(rq, deadline, 0, p0)
  {
    r, p := Again, p0;
    var physical := 0;
    while r.Again?
      invariant s.Valid() && old(s.history) <= s.history
      invariant AllCoupled(base, s.history, |old(s.history)|, rq.run, false)
      invariant 0 <= physical <= rq.budgets.transportAttemptCap && |p.attempts| <= |p0.attempts| + physical
      invariant InTime(rq.world, p.attempts, deadline) && p.schema == p0.schema
      invariant (r.Again? ==> physical < rq.budgets.transportAttemptCap) && Turned(base, s.db, rq, r, p)
      invariant old(s.Calm()) ==> s.Calm()
      invariant old(s.Calm()) ==>
        RoundOf(rq, deadline, 0, p0) == if r.Again? then RoundOf(rq, deadline, physical, p) else (r, p)
      decreases rq.budgets.transportAttemptCap - physical
    {
      r, p := TryOnce(s, rq, deadline, physical + 1 < rq.budgets.transportAttemptCap, p, base);
      physical := physical + 1;
    }
  }

  // A call that does not finish its run persists nothing.
  ghost predicate Inert<B(!new), Out(!new)>(persist: (B, Out) -> Option<B>) {
    forall b, o :: persist(b, o) == Some(b)
  }

  // The transaction that couples business data, the call and (unless the stage
  // finishes it later) the run; when it cannot commit, the response stays paid for.
  method Complete<B(!new), Out(!new)>(s: Session<B>, rq: Request<Out>, output: Out, persist: (B, Out) -> Option<B>,
                                      p: Progress, ghost base: Db<B>)
    returns (o: Outcome<Out>)
    requires s.Valid() && InFlight(base, s.db, rq.run, rq.index, p) && (rq.finishRun || Inert(persist))
    modifies s
    ensures s.Valid() && old(s.history) <= s.history
    ensures AllCoupled(base, s.history, |old(s.history)|, rq.run, rq.finishRun)
    ensures o.Validated? ==> o.output == output && persist(base.business, output).Some?
    ensures o.Validated? ==> s.db.business == persist(base.business, output).value
    ensures o.Validated? ==> s.db.runs == base.runs[rq.run := if rq.finishRun then Finished(rq.outputs) else Running]
    ensures o.Validated? ==> |CallsOf(s.db, rq.run)| == |CallsOf(base, rq.run)|
    ensures o.Validated? ==> CallIs(base, s.db, rq.run, rq.index, Call(Succeeded, p.transport, p.schema))
    ensures o.LlmError? ==>
              o.code == BusinessCommitFailed && s.db.runs == base.runs[rq.run := Broken(BusinessCommitFailed)]
    ensures o.LlmError? ==> s.db.business == base.business
    ensures o.LlmError? ==> CallIs(base, s.db, rq.run, rq.index, Call(Succeeded, p.transport, p.schema))
    ensures !o.Cancelled?
    ensures old(s.Calm()) ==>
              s.Calm()
              && o == if persist(base.business, output).Some? then Validated(output) else LlmError(BusinessCommitFailed)
  {
    var replaced := persist(s.db.business, output);
    CompletedRows(base, s.db, rq, p, replaced);
    var tx := s.Transact(CompleteRows(s.db, rq, replaced));
    match tx {
      case Committed => o := Validated(output);
      case Interrupted => o := KeyboardInterrupt;
      case Raised => o := KeepPaidFor(s, rq, p, base);
    }
  }

  // The response stays recorded as succeeded, and the run breaks.
  method KeepPaidFor<B(!new), Out(!new)>(s: Session<B>, rq: Request<Out>, p: Progress, ghost base: Db<B>)
    returns (o: Outcome<Out>)
    requires s.Valid() && InFlight(base, s.db, rq.run, rq.index, p)
    modifies s
    ensures s.Valid() && old(s.history) <= s.history
    ensures AllCoupled(base, s.history, |old(s.history)|, rq.run, rq.finishRun)
    ensures o == LlmError(BusinessCommitFailed) || o == OtherError || o == KeyboardInterrupt
    ensures o.LlmError? ==>
              s.db.runs == base.runs[rq.run := Broken(BusinessCommitFailed)] && s.db.business == base.business
    ensures o.LlmError? ==> CallIs(base, s.db, rq.run, rq.index, Call(Succeeded, p.transport, p.schema))
    ensures old(s.Calm()) ==> s.Calm() && o == LlmError(BusinessCommitFailed)
  {
    CallFinished(base, s.db, rq.run, rq.index, p, Succeeded);
    var tx := s.Transact(CommitFailedRows(s.db, rq.run, rq.index));
    return match tx case Committed => LlmError(BusinessCommitFailed) case Raised => OtherError
                    case Interrupted => KeyboardInterrupt;
  }

  lemma CompletedRows<B(!new), Out(!new)>(base: Db<B>, d: Db<B>, rq: Request<Out>, p: Progress, replaced: Option<B>)
    requires InFlight(base, d, rq.run, rq.index, p)
    ensures CompleteRows(d, rq, replaced).Some? <==> replaced.Some?
    ensures replaced.Some? ==>
      var e := CompleteRows(d, rq, replaced).value;
      && e.business == replaced.value && CallIs(base, e, rq.run, rq.index, Call(Succeeded, p.transport, p.schema))
      && e.runs == base.runs[rq.run := if rq.finishRun then Finished(rq.outputs) else Running]
      && |CallsOf(e, rq.run)| == |CallsOf(base, rq.run)|
  {
    if replaced.Some? {
      CallFinished(base, d.(business := replaced.value), rq.run, rq.index, p, Succeeded);
    }
  }

  // The output is what the validator of the round last run made of the message
  // the runner delivered on the last attempt.
  ghost predicate Accepted<Out(!new)>(rq: Request<Out>, p: Progress, output: Out) {
    && p.attempts != [] && p.schema < 2
    && exists bytes ::
         Answered(rq.world, |p.attempts| - 1, Some(bytes)) && rq.world.validate(p.schema, bytes) == Valid(output)
  }

  // What an invocation may end with; `rounds` says whether it got past preflight.
  ghost predicate Concluded<B(!new), Out(!new)>(base: Db<B>, d: Db<B>, rq: Request<Out>, persist: (B, Out) -> Option<B>,
                                                p: Progress, o: Outcome<Out>, late: bool, rounds: bool) {
    && (o.Validated? ==>
          && rounds && Accepted(rq, p, o.output) && persist(base.business, o.output) == Some(d.business)
          && d.runs == base.runs[rq.run := if rq.finishRun then Finished(rq.outputs) else Running]
          && |CallsOf(d, rq.run)| == |CallsOf(base, rq.run)|
          && CallIs(base, d, rq.run, rq.index, Call(Succeeded, p.transport, p.schema))
          && |p.attempts| == p.transport + p.schema + 1)
    && (o.LlmError? || o.Cancelled? ==>
          || (rounds && Ending(base, d, rq.run, rq.index, p, if o.LlmError? then o.code else CancelledCode, late))
          || (!rounds && Unstarted(base, d, rq.run, rq.index, p, if o.LlmError? then o.code else CancelledCode))
          || (o == LlmError(BusinessCommitFailed) && rounds && CommitFailed(base, d, rq.run, rq.index, p)))
  }

  ghost predicate Unstarted<B(!new)>(base: Db<B>, d: Db<B>, run: string, index: nat, p: Progress, code: Code) {
    && p.attempts == [] && run in d.runs && d.runs[run] == Broken(code) && d.business == base.business
    && CallIs(base, d, run, index, Call(FailedWith(code), 0, 0))
  }

  ghost predicate CommitFailed<B(!new)>(base: Db<B>, d: Db<B>, run: string, index: nat, p: Progress) {
    && run in d.runs && d.runs[run] == Broken(BusinessCommitFailed) && d.business == base.business
    && CallIs(base, d, run, index, Call(Succeeded, p.transport, p.schema))
    && |p.attempts| == p.transport + p.schema + 1
  }

  method RunRounds<B(!new), Out(!new)>(s: Session<B>, rq: Request<Out>, persist: (B, Out) -> Option<B>,
                                       ghost base: Db<B>)
    returns (o: Outcome<Out>, p: Progress, ghost late: bool, ghost rounds: bool)
    requires s.Valid() && InFlight(base, s.db, rq.run, rq.index, Progress([], 0, 0, 0))
    requires rq.finishRun || Inert(persist)
    modifies s
    ensures s.Valid() && old(s.history) <= s.history
    ensures AllCoupled(base, s.history, |old(s.history)|, rq.run, rq.finishRun)
    ensures p.attempts == [] || |p.attempts| <= 2 * rq.budgets.transportAttemptCap
    ensures InTime(rq.world, p.attempts, rq.world.monotonic(0) + rq.budgets.deadlineSeconds)
    ensures Concluded(base, s.db, rq, persist, p, o, late, rounds)
    ensures if rounds then Barred(rq).None? else p.attempts == []
    ensures !rounds && o.LlmError? ==> Barred(rq) == Some(o.code)
    ensures old(s.Calm()) ==> s.Calm() && Uncancelled(o, p, late, CourseOf(rq, persist, base.business))
    ensures old(s.Calm()) && Barred(rq).Some? ==>
              s.db.runs == base.runs[rq.run := Broken(Barred(rq).value)] && !o.KeyboardInterrupt?
  {
    p, late, rounds := Progress([], 0, 0, 0), false, false;
    var interrupted := s.Interruptible();
    if interrupted { return KeyboardInterrupt, p, false, false; }
    var barred := Barred(rq);
    UnlessBarred(rq);
    if barred.Some? {
      o := RefuseCall(s, rq, persist, barred.value, base);
      BarredCourse(rq, persist, base.business);
    } else {
      rounds := true;
      o, p, late := AllRounds(s, rq, persist, Deadline(rq), base);
      OpenCourse(rq, persist, base.business);
    }
  }

  lemma UnlessBarred<Out>(rq: Request<Out>)
    ensures Barred(rq).None? ==>
              PreflightCall(rq.bytes, rq.secret, rq.budgets).Fits? && rq.budgets.transportAttemptCap > 0
  {
  }

  // The verdict of the capability check comes first, then that of preflight.
  ghost function Refusal<Out>(rq: Request<Out>): Option<Code> {
    match rq.capability
    case Some(code) => Some(code)
    case None =>
      match PreflightCall(rq.bytes, rq.secret, rq.budgets)
      case Refused(code) => Some(code)
      case Fits(_) => None
  }

  lemma BarredIsRefusal<Out>(rq: Request<Out>)
    ensures Barred(rq) == Refusal(rq)
  {
  }

  lemma RefusedCourse<B, Out>(rq: Request<Out>, persist: (B, Out) -> Option<B>, business: B)
    ensures Refusal(rq).Some? ==>
              CourseOf(rq, persist, business).outcome
              == if Refusal(rq).value == CancelledCode then Cancelled else LlmError(Refusal(rq).value)
    ensures Refusal(rq).None? ==> rq.capability.None? && PreflightCall(rq.bytes, rq.secret, rq.budgets).Fits?
  {
    BarredIsRefusal(rq);
    if Refusal(rq).Some? { BarredCourse(rq, persist, business); }
  }

  lemma BarredCourse<B, Out>(rq: Request<Out>, persist: (B, Out) -> Option<B>, business: B)
    requires Barred(rq).Some?
    ensures CourseOf(rq, persist, business)
            == Course(if Barred(rq).value == CancelledCode then Cancelled else LlmError(Barred(rq).value),
                      Progress([], 0, 0, 0), false)
  {
  }

  lemma OpenCourse<B, Out>(rq: Request<Out>, persist: (B, Out) -> Option<B>, business: B)
    requires Barred(rq).None? && rq.budgets.transportAttemptCap > 0
    ensures var c := RoundsOf(rq, persist, business, Deadline(rq), 0, Progress([], 1, 0, 0));
            Uncancelled(c.outcome, c.p, c.late, CourseOf(rq, persist, business))
  {
  }

  // The rows of a call that preflight refuses.
  method RefuseCall<B(!new), Out(!new)>(s: Session<B>, rq: Request<Out>, ghost persist: (B, Out) -> Option<B>,
                                        code: Code, ghost base: Db<B>)
    returns (o: Outcome<Out>)
    requires s.Valid() && InFlight(base, s.db, rq.run, rq.index, Progress([], 0, 0, 0))
    modifies s
    ensures s.Valid() && old(s.history) <= s.history
    ensures AllCoupled(base, s.history, |old(s.history)|, rq.run, rq.finishRun)
    ensures Concluded(base, s.db, rq, persist, Progress([], 0, 0, 0), o, false, false)
    ensures o.LlmError? ==> o.code == code
    ensures old(s.Calm()) ==> s.Calm() && o == if code == CancelledCode then Cancelled else LlmError(code)
    ensures old(s.Calm()) ==> s.db.runs == base.runs[rq.run := Broken(code)]
  {
    o := Fail(s, rq, code, base, Progress([], 0, 0, 0));
    if o == LlmError(CancelledCode) { o := Cancelled; }
  }

  // At most two rounds under one deadline; the clock has been read once.
  method AllRounds<B(!new), Out(!new)>(s: Session<B>, rq: Request<Out>, persist: (B, Out) -> Option<B>, deadline: real,
                                       ghost base: Db<B>)
    returns (o: Outcome<Out>, p: Progress, ghost late: bool)
    requires s.Valid() && InFlight(base, s.db, rq.run, rq.index, Progress([], 1, 0, 0))
    requires rq.budgets.transportAttemptCap > 0 && (rq.finishRun || Inert(persist))
    modifies s
    ensures s.Valid() && old(s.history) <= s.history
    ensures AllCoupled(base, s.history, |old(s.history)|, rq.run, rq.finishRun)
    ensures |p.attempts| <= 2 * rq.budgets.transportAttemptCap && InTime(rq.world, p.attempts, deadline)
    ensures Concluded(base, s.db, rq, persist, p, o, late, true)
    ensures old(s.Calm()) ==>
              s.Calm() && Course(o, p, late) == RoundsOf(rq, persist, base.business, deadline, 0, Progress([], 1, 0, 0))
  {
    p, late, o := Progress([], 1, 0, 0), false, OtherError;
    var round, done := 0, false;
    while !done
      invariant s.Valid() && old(s.history) <= s.history && 0 <= round <= 2
      invariant AllCoupled(base, s.history, |old(s.history)|, rq.run, rq.finishRun)
      invariant |p.attempts| <= round * rq.budgets.transportAttemptCap && InTime(rq.world, p.attempts, deadline)
      invariant !done ==>
        round < 2 && InFlight(base, s.db, rq.run, rq.index, p) && Between(p) && p.schema == round && !late
      invariant done ==> Concluded(base, s.db, rq, persist, p, o, late, true)
      invariant old(s.Calm()) ==> s.Calm()
      invariant old(s.Calm()) ==>
        RoundsOf(rq, persist, base.business, deadline, 0, Progress([], 1, 0, 0))
        == if done then Course(o, p, late) else RoundsOf(rq, persist, base.business, deadline, round, p)
      decreases 2 - round
    {
      ghost var past := s.history;
      o, p, late, done := OneRound(s, rq, persist, deadline, round, p, base);
      CoupledJoin(base, past, s.history, |old(s.history)|, rq.run, rq.finishRun);
      round := round + 1;
    }
  }

  // The course `c`, but for an interrupt that is not yet recorded as a cancellation.
  ghost predicate Uncancelled<Out>(o: Outcome<Out>, p: Progress, late: bool, c: Course<Out>) {
    c == Course(if o.KeyboardInterrupt? then Cancelled else o, p, late)
  }

  // Transport, then validation.
  method OneRound<B(!new), Out(!new)>(s: Session<B>, rq: Request<Out>, persist: (B, Out) -> Option<B>, deadline: real,
                                      round: nat, p0: Progress, ghost base: Db<B>)
    returns (o: Outcome<Out>, p: Progress, ghost late: bool, done: bool)
    requires s.Valid() && InFlight(base, s.db, rq.run, rq.index, p0) && Between(p0)
    requires InTime(rq.world, p0.attempts, deadline)
    requires round == p0.schema < 2 && rq.budgets.transportAttemptCap > 0 && (rq.finishRun || Inert(persist))
    modifies s
    ensures s.Valid() && old(s.history) <= s.history
    ensures AllCoupled(base, s.history, |old(s.history)|, rq.run, rq.finishRun)
    ensures |p.attempts| <= |p0.attempts| + rq.budgets.transportAttemptCap && InTime(rq.world, p.attempts, deadline)
    ensures !done ==> round == 0 && InFlight(base, s.db, rq.run, rq.index, p) && Between(p) && p.schema == 1 && !late
    ensures done ==> Concluded(base, s.db, rq, persist, p, o, late, true)
    ensures old(s.Calm()) ==> s.Calm()
    ensures old(s.Calm()) ==>
              RoundsOf(rq, persist, base.business, deadline, round, p0)
              == if done then Course(o, p, late) else RoundsOf(rq, persist, base.business, deadline, round + 1, p)
  {
    var r: Physical<Out>;
    r, p := RunRound(s, rq, deadline, p0, base);
    if r.Over? { return r.outcome, p, r.late, true; }
    ghost var past := s.history;
    o, p, done := Judge(s, rq, persist, r.bytes, round, p, base);
    CoupledJoin(base, past, s.history, |old(s.history)|, rq.run, rq.finishRun);
    late := false;
  }

  lemma CoupledJoin<B(!new)>(base: Db<B>, h: seq<Db<B>>, longer: seq<Db<B>>, from: nat, run: string, mayFinish: bool)
    requires h <= longer && from <= |h|
    requires AllCoupled(base, h, from, run, mayFinish) || AllCoupled(base, h, from, run, false)
    requires AllCoupled(base, longer, |h|, run, mayFinish) || AllCoupled(base, longer, |h|, run, false)
    ensures AllCoupled(base, longer, from, run, mayFinish)
  {
    forall k | from <= k < |longer| ensures Coupled(base, longer[k], run, mayFinish) {
      if k < |h| { assert longer[k] == h[k]; }
    }
  }

  // What happens to a delivered message in one round.
  method Judge<B(!new), Out(!new)>(s: Session<B>, rq: Request<Out>, persist: (B, Out) -> Option<B>,
                                   message: Option<Bytes>, round: nat, p0: Progress, ghost base: Db<B>)
    returns (o: Outcome<Out>, p: Progress, done: bool)
    requires s.Valid() && InFlight(base, s.db, rq.run, rq.index, p0) && round == p0.schema < 2
    requires (rq.finishRun || Inert(persist)) && |p0.attempts| == p0.transport + p0.schema + 1
    requires Answered(rq.world, |p0.attempts| - 1, message)
    modifies s
    ensures s.Valid() && old(s.history) <= s.history
    ensures AllCoupled(base, s.history, |old(s.history)|, rq.run, rq.finishRun)
    ensures p.attempts == p0.attempts
    ensures !done ==> round == 0 && InFlight(base, s.db, rq.run, rq.index, p) && Between(p)
    ensures done ==> Concluded(base, s.db, rq, persist, p, o, false, true)
    ensures old(s.Calm()) ==> s.Calm() && (done <==> !Revises(rq, message, round))
    ensures old(s.Calm()) && done ==> o == Judgement(rq, persist, base.business, message, round)
    ensures p == p0 || p == p0.(schema := p0.schema + 1)
    ensures p == p0 <==> !Revises(rq, message, round)
  {
    p, done := p0, true;
    if message.None? {
      o := Fail(s, rq, TransportProviderError, base, p);
      return;
    }
    match rq.world.validate(round, message.value) {
      case ValidationInterrupted => o := KeyboardInterrupt;
      case EnrichmentFails => o := Fail(s, rq, DeterministicEnrichmentFailed, base, p);
      case Valid(output) => o := Complete(s, rq, output, persist, p, base);
      case Invalid =>
        if round == 1 {
          o := Fail(s, rq, ResponseValidationFailed, base, p);
        } else {
          o, p, done := CountRevision(s, rq, p, base);
        }
    }
  }

  // An invalid first response: the retry is counted before the second round.
  method CountRevision<B(!new), Out(!new)>(s: Session<B>, rq: Request<Out>, p0: Progress, ghost base: Db<B>)
    returns (o: Outcome<Out>, p: Progress, done: bool)
    requires s.Valid() && InFlight(base, s.db, rq.run, rq.index, p0)
    modifies s
    ensures s.Valid() && old(s.history) <= s.history
    ensures AllCoupled(base, s.history, |old(s.history)|, rq.run, false)
    ensures p == p0.(schema := p0.schema + 1) && (o.KeyboardInterrupt? || o.OtherError?)
    ensures !done ==> InFlight(base, s.db, rq.run, rq.index, p)
    ensures old(s.Calm()) ==> s.Calm() && !done
  {
    RetryCounted(base, s.db, rq.run, rq.index, p0, Schema);
    var tx := s.Transact(IncrementRetry(s.db, rq.run, rq.index, Schema));
    p, done := p0.(schema := p0.schema + 1), tx != Committed;
    o := if tx == Interrupted then KeyboardInterrupt else OtherError;
  }

  // ---- The invocation ----

  // The rows just created: the base every later statement works on.
  ghost predicate Opened<B(!new)>(start: Db<B>, base: Db<B>, run: string, index: nat) {
    && base.runs == start.runs[run := Running] && base.business == start.business
    && base.calls == start.calls[run := CallsOf(start, run) + [Call(Active, 0, 0)]]
    && index == |CallsOf(base, run)|
  }

  // A first call opens a new run; a later one needs the run running, and comes next in it.
  ghost predicate MayOpen<B>(d: Db<B>, run: string, index: nat) {
    && (if index == 1 then run !in d.runs else run in d.runs && d.runs[run] == Running)
    && index == |CallsOf(d, run)| + 1
  }

  lemma CreatedIsOpened<B(!new)>(start: Db<B>, run: string, index: nat)
    ensures CreateRows(start, run, index).Some? <==> MayOpen(start, run, index)
    ensures CreateRows(start, run, index).Some? ==> Opened(start, CreateRows(start, run, index).value, run, index)
  {
    if index != 1 && MayOpen(start, run, index) { assert start.runs == start.runs[run := Running]; }
  }

  lemma OpenedInFlight<B(!new)>(start: Db<B>, base: Db<B>, run: string, index: nat)
    requires Opened(start, base, run, index)
    ensures InFlight(base, base, run, index, Progress([], 0, 0, 0))
  {
    assert CallsOf(base, run) == CallsOf(base, run)[index - 1 := Call(Active, 0, 0)];
    assert base.calls == base.calls[run := CallsOf(base, run)];
  }

  /** `invoke_contract`: at most twice the attempt cap of attempts, none started
      at or past the deadline; in every durable state business data has changed
      only if the run is finished; a validated output is what the validator made
      of the message delivered on the last attempt, and its call's retry counters
      count exactly the repeated attempts. Where no transaction fails and nothing
      interrupts the service, the outcome is the one of `CourseOf`. */
  method InvokeContract<B(!new), Out(!new)>(s: Session<B>, rq: Request<Out>, persist: (B, Out) -> Option<B>)
    returns (o: Outcome<Out>, p: Progress, ghost late: bool, ghost rounds: bool)
    requires s.Valid() && (rq.finishRun || Inert(persist))
    modifies s
    ensures s.Valid() && old(s.history) <= s.history
    ensures !FinishedBefore(old(s.db), rq.run) ==>
              AllCoupled(old(s.db), s.history, |old(s.history)|, rq.run, rq.finishRun)
    ensures FinishedBefore(old(s.db), rq.run) ==>
              forall k | |old(s.history)| <= k < |s.history| :: s.history[k] == old(s.db)
    ensures p.attempts == [] || |p.attempts| <= 2 * rq.budgets.transportAttemptCap
    ensures InTime(rq.world, p.attempts, rq.world.monotonic(0) + rq.budgets.deadlineSeconds)
    ensures p.attempts != [] ==> rq.capability.None? && PreflightCall(rq.bytes, rq.secret, rq.budgets).Fits?
    ensures old(s.Calm()) && MayOpen(old(s.db), rq.run, rq.index) && Refusal(rq).Some? ==>
              && s.db.runs == old(s.db).runs[rq.run := Broken(Refusal(rq).value)]
              && o == if Refusal(rq) == Some(CancelledCode) then Cancelled else LlmError(Refusal(rq).value)
    ensures !MayOpen(old(s.db), rq.run, rq.index) ==>
              s.db == old(s.db) && (o.OtherError? || o.KeyboardInterrupt?)
    ensures o.Validated? || o.LlmError? ==>
              exists base :: Opened(old(s.db), base, rq.run, rq.index)
                             && Concluded(base, s.db, rq, persist, p, o, late, rounds)
    ensures old(s.Calm()) ==>
              s.Calm() && Course(o, p, late) == if MayOpen(old(s.db), rq.run, rq.index)
                                                then CourseOf(rq, persist, old(s.db).business)
                                                else Course(OtherError, Progress([], 0, 0, 0), false)
  {
    p, late, rounds := Progress([], 0, 0, 0), false, false;
    ghost var start, from := s.db, |s.history|;
    var created := CreateRows(s.db, rq.run, rq.index);
    BarredIsRefusal(rq);
    RefusedCourse(rq, persist, s.db.business);
    CreatedIsOpened(s.db, rq.run, rq.index);
    var tx := s.Transact(created);
    CreationCoupled(start, s.db, rq.run, rq.index, rq.finishRun);
    if tx == Committed {
      o, p, late, rounds := RunOpened(s, rq, persist, start, s.db);
      FirstState(start, s.history, from, rq.run, rq.finishRun);
    } else {
      o := if tx == Raised then OtherError else KeyboardInterrupt;
    }
  }

  // Creating the rows touches no business data and finishes no run.
  lemma CreationCoupled<B(!new)>(start: Db<B>, d: Db<B>, run: string, index: nat, mayFinish: bool)
    requires d == start || Some(d) == CreateRows(start, run, index)
    ensures Coupled(start, d, run, mayFinish) || FinishedBefore(start, run)
    ensures FinishedBefore(start, run) ==> d == start
  {
  }

  lemma FirstState<B(!new)>(start: Db<B>, h: seq<Db<B>>, from: nat, run: string, mayFinish: bool)
    requires from < |h| && Coupled(start, h[from], run, mayFinish) && AllCoupled(start, h, from + 1, run, mayFinish)
    ensures AllCoupled(start, h, from, run, mayFinish)
  {
  }

  // The rounds on the rows just created, with the interrupt handler around them.
  method RunOpened<B(!new), Out(!new)>(s: Session<B>, rq: Request<Out>, persist: (B, Out) -> Option<B>,
                                       ghost start: Db<B>, ghost base: Db<B>)
    returns (o: Outcome<Out>, p: Progress, ghost late: bool, ghost rounds: bool)
    requires s.Valid() && (rq.finishRun || Inert(persist)) && s.db == base && Opened(start, base, rq.run, rq.index)
    modifies s
    ensures s.Valid() && old(s.history) <= s.history
    ensures AllCoupled(start, s.history, |old(s.history)|, rq.run, rq.finishRun)
    ensures p.attempts == [] || |p.attempts| <= 2 * rq.budgets.transportAttemptCap
    ensures InTime(rq.world, p.attempts, rq.world.monotonic(0) + rq.budgets.deadlineSeconds)
    ensures p.attempts != [] ==> Barred(rq).None?
    ensures o.Validated? || o.LlmError? ==> Concluded(base, s.db, rq, persist, p, o, late, rounds)
    ensures old(s.Calm()) ==> s.Calm() && Course(o, p, late) == CourseOf(rq, persist, base.business)
    ensures old(s.Calm()) && Barred(rq).Some? ==> s.db.runs == base.runs[rq.run := Broken(Barred(rq).value)]
  {
    ghost var past := s.history;
    OpenedInFlight(start, base, rq.run, rq.index);
    o, p, late, rounds := RunRounds(s, rq, persist, base);
    Rebased(start, base, s.history, past, |past|, rq.run, rq.index, rq.finishRun);
    if o.KeyboardInterrupt? {
      ghost var before := s.history;
      o := RecordCancelled(s, rq, start);
      CoupledJoin(start, before, s.history, |past|, rq.run, rq.finishRun);
    }
  }

  // The handler of an interrupt anywhere in the rounds: terminal rows if they
  // can still be written, and a cancelled result either way.
  method RecordCancelled<B(!new), Out(!new)>(s: Session<B>, rq: Request<Out>, ghost start: Db<B>)
    returns (o: Outcome<Out>)
    requires s.Valid() && Coupled(start, s.db, rq.run, rq.finishRun)
    modifies s
    ensures s.Valid() && old(s.history) <= s.history && o == (if o.Cancelled? then Cancelled else KeyboardInterrupt)
    ensures AllCoupled(start, s.history, |old(s.history)|, rq.run, rq.finishRun)
    ensures s.db == old(s.db) || BothFailed(old(s.db), s.db, rq.run, rq.index, CancelledCode)
    ensures old(s.Calm()) ==> s.Calm() && o == Cancelled
  {
    FailRowsMeans(s.db, rq.run, rq.index, CancelledCode);
    var last := s.Transact(FailRows(s.db, rq.run, rq.index, CancelledCode));
    CancelledCoupled(start, old(s.db), s.db, rq.run, rq.index, rq.finishRun);
    o := if last == Interrupted then KeyboardInterrupt else Cancelled;
  }

  // A run ID that was finished already: its creation is refused.
  ghost predicate FinishedBefore<B(!new)>(d: Db<B>, run: string) {
    run in d.runs && d.runs[run].Finished?
  }

  lemma Rebased<B(!new)>(start: Db<B>, base: Db<B>, h: seq<Db<B>>, past: seq<Db<B>>, from: nat, run: string, index: nat,
                         mayFinish: bool)
    requires Opened(start, base, run, index) && past <= h && from <= |past|
    requires forall k | from <= k < |past| :: past[k] == base
    requires AllCoupled(base, h, |past|, run, mayFinish)
    ensures AllCoupled(start, h, from, run, mayFinish)
  {
    forall k | from <= k < |h| ensures Coupled(start, h[k], run, mayFinish) {
      if k < |past| {
        assert h[k] == base;
      } else {
        assert Coupled(base, h[k], run, mayFinish);
      }
    }
  }

  lemma CancelledCoupled<B(!new)>(start: Db<B>, before: Db<B>, after: Db<B>, run: string, index: nat, mayFinish: bool)
    requires Coupled(start, before, run, mayFinish)
    requires after == before || Some(after) == FailRows(before, run, index, CancelledCode)
    ensures Coupled(start, after, run, mayFinish)
  {
  }
}
