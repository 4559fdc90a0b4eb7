// A complete stage: every planned call validates before one transaction swaps
// the business data and finishes the run.
module Stage {
  import opened Basics
  import opened Preflight
  import opened Telemetry
  import opened Invocation

  datatype Planned<!Out, !R> = Planned(bytes: nat, secret: bool, world: World<Out>, resolve: Out -> Option<R>)

  // The business replacement of a plan, as an object that keeps the arguments
  // of every call that was made to it.
  class Committer<!B, !R> {
    const commit: (B, seq<R>) -> Option<(B, seq<string>)>
    ghost var calls: seq<seq<R>>

    constructor (commit: (B, seq<R>) -> Option<(B, seq<string>)>)
      ensures this.commit == commit && calls == []
    {
      this.commit, calls := commit, [];
    }

    method Commit(business: B, resolved: seq<R>) returns (replacement: Option<(B, seq<string>)>)
      modifies this
      ensures calls == old(calls) + [resolved] && replacement == commit(business, resolved)
    {
      replacement := commit(business, resolved);
      calls := calls + [resolved];
    }
  }

  datatype Plan<!B, !Out, !R> = Plan(
    run: string, budgets: Budgets, capability: Option<Code>, calls: seq<Planned<Out, R>>, committer: Committer<B, R>)

  datatype StageOutcome<R> =
    | Completed(outputs: seq<string>, resolved: seq<R>)
    | StageError(code: Code) | StageCancelled | StageInterrupted | StageOther

  // The result of a call: its resolution of what its validator made of the
  // message its own runner delivered on the last of these attempts.
  ghost predicate ResultOf<Out(!new), R(!new)>(call: Planned<Out, R>, attempts: seq<Attempt>, r: R) {
    && attempts != []
    && exists round: nat, bytes, out ::
         && round < 2 && Answered(call.world, |attempts| - 1, Some(bytes))
         && call.world.validate(round, bytes) == Valid(out) && call.resolve(out) == Some(r)
  }

  ghost predicate Results<B(!new), Out(!new), R(!new)>(plan: Plan<B, Out, R>, spent: seq<StageCall>, resolved: seq<R>) {
    && |resolved| == |spent| == |plan.calls|
    && forall i | 0 <= i < |resolved| :: ResultOf(plan.calls[i], spent[i].attempts, resolved[i])
  }

  // The business replacement stands exactly in the states where the run is
  // finished, and then it is what `commit` made of the results of all calls.
  ghost predicate Atomic<B(!new), Out(!new), R(!new)>(start: Db<B>, d: Db<B>, plan: Plan<B, Out, R>,
                                                      spent: seq<StageCall>, resolved: seq<R>) {
    if plan.run in d.runs && d.runs[plan.run].Finished?
    then
      && Results(plan, spent, resolved)
      && plan.committer.commit(start.business, resolved) == Some((d.business, d.runs[plan.run].outputs))
    else d.business == start.business
  }

  function FinishIfRunning<B>(db: Db<B>, run: string, code: Code): Option<Db<B>> {
    if run !in db.runs || db.runs[run] != Running then Some(db) else FinishRun(db, run, Broken(code))
  }

  function CommitRows<B>(db: Db<B>, run: string, replacement: Option<(B, seq<string>)>): Option<Db<B>> {
    match replacement
    case None => None
    case Some((business, outputs)) => FinishRun(db.(business := business), run, Finished(outputs))
  }

  function StageBudgets<B, Out, R>(plan: Plan<B, Out, R>): Budgets {
    plan.budgets.(plannedCallCount := |plan.calls|)
  }

  function RequestFor<B, Out, R>(plan: Plan<B, Out, R>, i: nat): Request<Out>
    requires i < |plan.calls|
  {
    var call := plan.calls[i];
    Request(plan.run, i + 1, call.bytes, call.secret, StageBudgets(plan), plan.capability, false, [], call.world)
  }

  function KeepBusiness<B, Out>(b: B, o: Out): Option<B> { Some(b) }

  // ---- How a stage goes when no transaction fails and nothing interrupts the service ----

  // What one call comes to: its result, when it validates and resolves, and
  // otherwise how it ends the stage.
  datatype Ruling<R> = Ruling(result: Option<R>, ending: StageOutcome<R>)

  function RulingOf<B, Out, R>(plan: Plan<B, Out, R>, business: B, i: nat): Ruling<R>
    requires i < |plan.calls|
  {
    Ruled(plan.calls[i], CourseOf<B, Out>(RequestFor(plan, i), KeepBusiness, business).outcome)
  }

  function Ruled<Out, R>(call: Planned<Out, R>, o: Outcome<Out>): Ruling<R> {
    match o
    case Validated(output) => Ruling(call.resolve(output), StageError(DeterministicEnrichmentFailed))
    case LlmError(code) => Ruling(None, StageError(code))
    case Cancelled => Ruling(None, StageCancelled)
    case KeyboardInterrupt => Ruling(None, StageInterrupted)
    case OtherError => Ruling(None, StageOther)
  }

  function Rulings<B, Out, R>(plan: Plan<B, Out, R>, business: B): seq<Ruling<R>> {
    seq(|plan.calls|, i requires 0 <= i < |plan.calls| => RulingOf(plan, business, i))
  }

  // The stage from call `i` on, with the results so far.
  function StageFrom<B, R>(rulings: seq<Ruling<R>>, commit: (B, seq<R>) -> Option<(B, seq<string>)>, business: B,
                           i: nat, resolved: seq<R>): StageOutcome<R>
    requires i <= |rulings|
    decreases |rulings| - i
  {
    if i == |rulings| then
      match commit(business, resolved)
      case None => StageError(BusinessCommitFailed)
      case Some((_, outputs)) => Completed(outputs, resolved)
    else
      match rulings[i].result
      case None => rulings[i].ending
      case Some(r) => StageFrom(rulings, commit, business, i + 1, resolved + [r])
  }

  // The whole stage; a run ID in use already is refused.
  ghost function StageOf<B, Out, R>(plan: Plan<B, Out, R>, start: Db<B>): StageOutcome<R> {
    if !MayOpen(start, plan.run, 1) then StageOther
    else StageFrom(Rulings(plan, start.business), plan.committer.commit, start.business, 0, [])
  }

  lemma {:induction false} ResultsCommit<B, R>(rulings: seq<Ruling<R>>, commit: (B, seq<R>) -> Option<(B, seq<string>)>,
                                               business: B, i: nat, results: seq<R>)
    requires i <= |rulings| == |results| && forall j | 0 <= j < |rulings| :: rulings[j].result == Some(results[j])
    ensures StageFrom(rulings, commit, business, i, results[..i])
            == match commit(business, results)
               case None => StageError(BusinessCommitFailed)
               case Some((_, outputs)) => Completed(outputs, results)
    decreases |rulings| - i
  {
    if i < |rulings| {
      assert results[..i] + [results[i]] == results[..i + 1];
      ResultsCommit(rulings, commit, business, i + 1, results);
    } else {
      assert results[..i] == results;
    }
  }

  lemma {:induction false} FirstFailureEnds<B, R>(rulings: seq<Ruling<R>>,
                                                  commit: (B, seq<R>) -> Option<(B, seq<string>)>,
                                                  business: B, i: nat, resolved: seq<R>, k: nat)
    requires i <= k < |rulings| && rulings[k].result.None? && forall j | i <= j < k :: rulings[j].result.Some?
    ensures StageFrom(rulings, commit, business, i, resolved) == rulings[k].ending
    decreases k - i
  {
    if i < k { FirstFailureEnds(rulings, commit, business, i + 1, resolved + [rulings[i].result.value], k); }
  }

  /** A stage with a new run ID whose calls all validate and resolve ends as its
      commit decides, with the result of call `i` at place `i`; where some call
      has no result, the first such call ends it. */
  lemma StageEnds<B, Out, R>(plan: Plan<B, Out, R>, start: Db<B>, k: nat, results: seq<R>)
    requires MayOpen(start, plan.run, 1) && |results| == k <= |plan.calls|
    requires forall j | 0 <= j < k :: RulingOf(plan, start.business, j).result == Some(results[j])
    requires k < |plan.calls| ==> RulingOf(plan, start.business, k).result.None?
    ensures StageOf(plan, start)
            == if k < |plan.calls| then RulingOf(plan, start.business, k).ending
               else match plan.committer.commit(start.business, results)
                    case None => StageError(BusinessCommitFailed)
                    case Some((_, outputs)) => Completed(outputs, results)
  {
    var rulings := Rulings(plan, start.business);
    assert forall j | 0 <= j < |plan.calls| :: rulings[j] == RulingOf(plan, start.business, j);
    if k < |plan.calls| {
      FirstFailureEnds(rulings, plan.committer.commit, start.business, 0, [], k);
    } else {
      assert results[..0] == [];
      ResultsCommit(rulings, plan.committer.commit, start.business, 0, results);
    }
  }

  // Call `i` is not refused, and its first message arrives in time, validates and resolves to `r`.
  ghost predicate Answers<B(!new), Out(!new), R(!new)>(plan: Plan<B, Out, R>, i: nat, r: R)
    requires i < |plan.calls|
  {
    var call, w := plan.calls[i], plan.calls[i].world;
    && plan.capability.None?
    && PreflightCall(call.bytes, call.secret, plan.budgets.(plannedCallCount := |plan.calls|)).Fits?
    && w.monotonic(1) < w.monotonic(0) + plan.budgets.deadlineSeconds
    && exists bytes, out ::
         Answered(w, 0, Some(bytes)) && w.validate(0, bytes) == Valid(out) && call.resolve(out) == Some(r)
  }

  ghost predicate AllAnswer<B(!new), Out(!new), R(!new)>(plan: Plan<B, Out, R>, results: seq<R>) {
    |results| == |plan.calls| && forall i: nat | i < |results| :: Answers(plan, i, results[i])
  }

  // What the commit of these results makes of the stage.
  ghost function EndOfCommit<B, R>(replacement: Option<(B, seq<string>)>, results: seq<R>): StageOutcome<R> {
    match replacement
    case None => StageError(BusinessCommitFailed)
    case Some((_, outputs)) => Completed(outputs, results)
  }

  lemma AnswerIsRuled<B(!new), Out(!new), R(!new)>(plan: Plan<B, Out, R>, business: B, i: nat, r: R)
    requires i < |plan.calls| && Answers(plan, i, r)
    ensures RulingOf(plan, business, i).result == Some(r)
  {
    var call := plan.calls[i];
    var bytes, out :| Answered(call.world, 0, Some(bytes)) && call.world.validate(0, bytes) == Valid(out)
                      && call.resolve(out) == Some(r);
    FirstMessageDecides<B, Out>(RequestFor(plan, i), KeepBusiness, business, bytes);
  }

  lemma AnswersCommit<B(!new), Out(!new), R(!new)>(plan: Plan<B, Out, R>, start: Db<B>, results: seq<R>)
    requires MayOpen(start, plan.run, 1) && AllAnswer(plan, results)
    ensures StageOf(plan, start) == EndOfCommit(plan.committer.commit(start.business, results), results)
  {
    forall i: nat | i < |results| ensures RulingOf(plan, start.business, i).result == Some(results[i]) {
      assert Answers(plan, i, results[i]);
      AnswerIsRuled(plan, start.business, i, results[i]);
    }
    StageEnds(plan, start, |results|, results);
  }

  // ---- One call ----

  // Between calls the run is open, or not created yet, and nothing else has changed.
  ghost predicate Midway<B(!new)>(start: Db<B>, d: Db<B>, run: string, i: nat) {
    && d.business == start.business
    && (if i == 0 then d == start
        else run in d.runs && d.runs[run] == Running && !FinishedBefore(start, run) && |CallsOf(d, run)| == i)
  }

  // What has to hold after any ending that is not a commit.
  ghost predicate Untouched<B(!new)>(start: Db<B>, d: Db<B>, run: string) {
    d.business == start.business && (FinishedBefore(d, run) ==> FinishedBefore(start, run))
  }

  ghost predicate AllUntouched<B(!new)>(start: Db<B>, h: seq<Db<B>>, from: nat, run: string) {
    forall k | from <= k < |h| :: Untouched(start, h[k], run)
  }

  // What call `i` of the plan was: its own input and provider, attempts only where
  // nothing refused it, none of them late, and no more than the cap allows.
  ghost predicate AsPlanned<B(!new), Out(!new), R(!new)>(plan: Plan<B, Out, R>, i: nat, c: StageCall)
    requires i < |plan.calls|
  {
    var call, budgets := plan.calls[i], plan.budgets.(plannedCallCount := |plan.calls|);
    && c.bytes == call.bytes && c.secret == call.secret
    && (c.attempts != [] ==> plan.capability.None? && PreflightCall(call.bytes, call.secret, budgets).Fits?)
    && (c.attempts != [] ==> |c.attempts| <= 2 * plan.budgets.transportAttemptCap)
    && InTime(call.world, c.attempts, call.world.monotonic(0) + plan.budgets.deadlineSeconds)
  }

  ghost predicate AllAsPlanned<B(!new), Out(!new), R(!new)>(plan: Plan<B, Out, R>, spent: seq<StageCall>) {
    |spent| <= |plan.calls| && forall i: nat | i < |spent| :: AsPlanned(plan, i, spent[i])
  }

  // Row `i + 1` of the run is a succeeded call whose retries are the attempts repeated.
  ghost predicate CallRow<B(!new)>(d: Db<B>, run: string, i: nat, c: StageCall) {
    && i < |CallsOf(d, run)| && CallsOf(d, run)[i].state == Succeeded
    && |c.attempts| == CallsOf(d, run)[i].transportRetries + CallsOf(d, run)[i].schemaRetries + 1
  }

  ghost predicate AllRows<B(!new)>(d: Db<B>, run: string, spent: seq<StageCall>) {
    |CallsOf(d, run)| == |spent| && forall i: nat | i < |spent| :: CallRow(d, run, i, spent[i])
  }

  // A refused call breaks its run with the code, and ends the stage.
  ghost predicate RefusedAs<B(!new), R(!new)>(d: Db<B>, run: string, code: Code, o: StageOutcome<R>) {
    && run in d.runs && d.runs[run] == Broken(code)
    && o == if code == CancelledCode then StageCancelled else StageError(code)
  }

  // What call `i` comes to when no transaction fails and nothing interrupts the service.
  ghost predicate AsCourse<B, Out, R>(plan: Plan<B, Out, R>, start: Db<B>, i: nat, o: StageOutcome<R>,
                                      resolved: Option<R>)
    requires i < |plan.calls|
  {
    if !MayOpen(start, plan.run, 1) then i == 0 ==> resolved.None? && o == StageOther
    else Follows(Rulings(plan, start.business)[i], o, resolved)
  }

  ghost predicate Follows<R>(ruling: Ruling<R>, o: StageOutcome<R>, resolved: Option<R>) {
    resolved == ruling.result && (resolved.None? ==> o == ruling.ending)
  }

  // The invocation of call `i`.
  method InvokeCall<B(!new), Out(!new), R(!new)>(s: Session<B>, plan: Plan<B, Out, R>, i: nat, ghost start: Db<B>)
    returns (o: Outcome<Out>, ghost spent: StageCall, ghost p: Progress)
    requires s.Valid() && i < |plan.calls| && Midway(start, s.db, plan.run, i)
    modifies s
    ensures s.Valid() && old(s.history) <= s.history && AllUntouched(start, s.history, |old(s.history)|, plan.run)
    ensures Untouched(start, s.db, plan.run) && AsPlanned(plan, i, spent)
    ensures spent == StageCall(plan.calls[i].bytes, plan.calls[i].secret, p.attempts)
    ensures o.Validated? ==> RowAdded(old(s.db), s.db, plan.run, i, spent)
    ensures old(s.Calm()) && MayOpen(start, plan.run, 1) && plan.capability.Some? ==>
              && plan.run in s.db.runs && s.db.runs[plan.run] == Broken(plan.capability.value)
              && o == if plan.capability == Some(CancelledCode) then Cancelled else LlmError(plan.capability.value)
    ensures o.Validated? ==> Midway(start, s.db, plan.run, i + 1) && Accepted(RequestFor(plan, i), p, o.output)
    ensures old(s.Calm()) ==> s.Calm()
    ensures old(s.Calm()) && MayOpen(start, plan.run, 1) ==>
              Ruled(plan.calls[i], o) == Rulings(plan, start.business)[i]
    ensures old(s.Calm()) && !MayOpen(start, plan.run, 1) && i == 0 ==> o == OtherError
  {
    var rq := RequestFor(plan, i);
    var q;
    ghost var late, rounds;
    o, q, late, rounds := InvokeContract<B, Out>(s, rq, KeepBusiness);
    p, spent := q, StageCall(plan.calls[i].bytes, plan.calls[i].secret, q.attempts);
    UnlessBarred(rq);
    assert s.history[|s.history| - 1] == s.db;
  }

  // The rows of the earlier calls are as they were, and that of call `i` came to them.
  ghost predicate RowAdded<B(!new)>(a: Db<B>, d: Db<B>, run: string, i: nat, c: StageCall) {
    && |CallsOf(a, run)| == i && |CallsOf(d, run)| == i + 1 && CallsOf(d, run)[..i] == CallsOf(a, run)
    && CallRow(d, run, i, c)
  }

  lemma RowsGrow<B(!new)>(a: Db<B>, d: Db<B>, run: string, spent: seq<StageCall>, one: StageCall)
    requires |spent| > 0 ==> AllRows(a, run, spent)
    requires RowAdded(a, d, run, |spent|, one)
    ensures AllRows(d, run, spent + [one])
  {
    forall i: nat | i < |spent| + 1 ensures CallRow(d, run, i, (spent + [one])[i]) {
      if i < |spent| {
        assert CallRow(a, run, i, spent[i]) && CallsOf(d, run)[i] == CallsOf(d, run)[..|spent|][i];
      }
    }
  }

  method RunCall<B(!new), Out(!new), R(!new)>(s: Session<B>, plan: Plan<B, Out, R>, i: nat, ghost start: Db<B>)
    returns (o: StageOutcome<R>, resolved: Option<R>, ghost spent: StageCall)
    requires s.Valid() && i < |plan.calls| && Midway(start, s.db, plan.run, i)
    modifies s
    ensures s.Valid() && old(s.history) <= s.history && AllUntouched(start, s.history, |old(s.history)|, plan.run)
    ensures Untouched(start, s.db, plan.run)
    ensures resolved.Some? ==>
              Midway(start, s.db, plan.run, i + 1) && ResultOf(plan.calls[i], spent.attempts, resolved.value)
    ensures !o.Completed?
    ensures AsPlanned(plan, i, spent)
    ensures resolved.Some? ==> RowAdded(old(s.db), s.db, plan.run, i, spent)
    ensures old(s.Calm()) && MayOpen(start, plan.run, 1) && plan.capability.Some? ==>
              RefusedAs(s.db, plan.run, plan.capability.value, o)
    ensures old(s.Calm()) ==> s.Calm() && AsCourse(plan, start, i, o, resolved)
  {
    var invoked: Outcome<Out>;
    ghost var p;
    invoked, spent, p := InvokeCall(s, plan, i, start);
    resolved := None;
    match invoked {
      case LlmError(code) => o := StageError(code);
      case Cancelled => o := StageCancelled;
      case KeyboardInterrupt => o := StageInterrupted;
      case OtherError => o := StageOther;
      case Validated(output) =>
        o := StageOther;
        var interrupted := s.Interruptible();
        if interrupted {
          o := StageInterrupted;
        } else {
          resolved := plan.calls[i].resolve(output);
          if resolved.None? { o := Abandon(s, plan, DeterministicEnrichmentFailed, start); }
        }
    }
  }

  // Record a failure on the run if it is still open.
  method Abandon<B(!new), Out(!new), R(!new)>(s: Session<B>, plan: Plan<B, Out, R>, code: Code, ghost start: Db<B>)
    returns (o: StageOutcome<R>)
    requires s.Valid() && Untouched(start, s.db, plan.run)
    modifies s
    ensures s.Valid() && old(s.history) <= s.history && AllUntouched(start, s.history, |old(s.history)|, plan.run)
    ensures Untouched(start, s.db, plan.run)
    ensures o == StageError(code) || o == StageOther || o == StageInterrupted
    ensures o == StageError(code) ==> plan.run in s.db.runs ==> s.db.runs[plan.run] != Running
    ensures old(s.Calm()) ==> s.Calm() && o == StageError(code)
  {
    var tx := s.Transact(FinishIfRunning(s.db, plan.run, code));
    return match tx case Committed => StageError(code) case Raised => StageOther case Interrupted => StageInterrupted;
  }

  // ---- All calls ----

  /** Whenever every attempt is billed within its estimate, what a stage spends
      stays under the run ceiling. */
  lemma StageStaysUnderCeiling<B(!new), Out(!new), R(!new)>(plan: Plan<B, Out, R>, spent: seq<StageCall>)
    requires AllAsPlanned(plan, spent) && plan.calls != []
    requires plan.budgets.perRunCostCeiling.Some? && plan.budgets.perRunCostCeiling.value >= 0.0
    requires Declared(plan.budgets)
    requires forall i: nat | i < |spent| && spent[i].attempts != [] ::
               var budgets := plan.budgets.(plannedCallCount := |plan.calls|);
               WithinEstimate(spent[i].attempts, PreflightCall(spent[i].bytes, spent[i].secret, budgets).metrics)
    ensures StageSpent(spent, plan.budgets.inputCostPerMillion.value, plan.budgets.outputCostPerMillion.value)
            <= plan.budgets.perRunCostCeiling.value
  {
    var budgets := plan.budgets.(plannedCallCount := |plan.calls|);
    if ShapeValid(budgets) {
      StageCostBound(spent, budgets);
    } else {
      NothingSpent(spent, budgets.inputCostPerMillion.value, budgets.outputCostPerMillion.value);
    }
  }

  lemma {:induction false} NothingSpent(spent: seq<StageCall>, inputPrice: Price, outputPrice: Price)
    requires forall i: nat | i < |spent| :: spent[i].attempts == []
    ensures StageSpent(spent, inputPrice, outputPrice) == 0.0
  {
    if spent != [] { NothingSpent(spent[..|spent| - 1], inputPrice, outputPrice); }
  }

  // The results of the calls made so far, and how the rest of the stage continues them.
  ghost predicate ResultsSoFar<B(!new), Out(!new), R(!new)>(plan: Plan<B, Out, R>, spent: seq<StageCall>,
                                                            resolved: seq<R>)
  {
    && |resolved| == |spent| <= |plan.calls|
    && forall j | 0 <= j < |resolved| :: ResultOf(plan.calls[j], spent[j].attempts, resolved[j])
  }

  ghost predicate OnCourse<B, Out, R>(plan: Plan<B, Out, R>, start: Db<B>, resolved: seq<R>)
    requires |resolved| <= |plan.calls|
  {
    if !MayOpen(start, plan.run, 1) then resolved == []
    else
      StageOf(plan, start)
      == StageFrom(Rulings(plan, start.business), plan.committer.commit, start.business, |resolved|, resolved)
  }

  lemma ResultsGrow<B(!new), Out(!new), R(!new)>(plan: Plan<B, Out, R>, spent: seq<StageCall>, resolved: seq<R>,
                                                 one: StageCall, r: R)
    requires ResultsSoFar(plan, spent, resolved) && |resolved| < |plan.calls|
    requires ResultOf(plan.calls[|resolved|], one.attempts, r)
    ensures ResultsSoFar(plan, spent + [one], resolved + [r])
  {
  }

  lemma PlannedGrows<B(!new), Out(!new), R(!new)>(plan: Plan<B, Out, R>, spent: seq<StageCall>, one: StageCall)
    requires AllAsPlanned(plan, spent) && |spent| < |plan.calls| && AsPlanned(plan, |spent|, one)
    ensures AllAsPlanned(plan, spent + [one])
  {
  }

  lemma CourseGrows<B, Out, R>(plan: Plan<B, Out, R>, start: Db<B>, resolved: seq<R>, o: StageOutcome<R>,
                               result: Option<R>)
    requires |resolved| < |plan.calls| && OnCourse(plan, start, resolved)
    requires AsCourse(plan, start, |resolved|, o, result)
    ensures result.Some? ==> OnCourse(plan, start, resolved + [result.value])
    ensures result.None? ==> o == StageOf(plan, start)
  {
  }

  method RunCalls<B(!new), Out(!new), R(!new)>(s: Session<B>, plan: Plan<B, Out, R>, ghost start: Db<B>)
    returns (o: Option<StageOutcome<R>>, resolved: seq<R>, ghost spent: seq<StageCall>)
    requires s.Valid() && s.db == start
    modifies s
    ensures s.Valid() && old(s.history) <= s.history && AllUntouched(start, s.history, |old(s.history)|, plan.run)
    ensures Untouched(start, s.db, plan.run)
    ensures o.None? ==> Results(plan, spent, resolved) && Midway(start, s.db, plan.run, |plan.calls|)
    ensures o.Some? ==> !o.value.Completed?
    ensures AllAsPlanned(plan, spent) && (o.None? && plan.calls != [] ==> AllRows(s.db, plan.run, spent))
    ensures plan.capability.Some? && plan.calls != [] ==> o.Some?
    ensures old(s.Calm()) && MayOpen(start, plan.run, 1) && plan.capability.Some? && plan.calls != [] ==>
              RefusedAs(s.db, plan.run, plan.capability.value, o.value)
    ensures old(s.Calm()) ==> s.Calm()
    ensures old(s.Calm()) ==>
              if o.Some? then o.value == StageOf(plan, start)
              else |resolved| == |plan.calls| && OnCourse(plan, start, resolved)
  {
    resolved, spent, o := [], [], None;
    ghost var from := |s.history|;
    for i := 0 to |plan.calls|
      invariant s.Valid() && old(s.history) <= s.history && AllUntouched(start, s.history, from, plan.run)
      invariant Midway(start, s.db, plan.run, i) && |resolved| == i && ResultsSoFar(plan, spent, resolved)
      invariant AllAsPlanned(plan, spent) && (i > 0 ==> AllRows(s.db, plan.run, spent) && plan.capability.None?)
      invariant o.None?
      invariant old(s.Calm()) ==> s.Calm() && OnCourse(plan, start, resolved)
    {
      ghost var before := s.db;
      var result: Option<R>;
      var ended: StageOutcome<R>;
      ghost var one;
      ended, result, one := RunCall(s, plan, i, start);
      if old(s.Calm()) { CourseGrows(plan, start, resolved, ended, result); }
      PlannedGrows(plan, spent, one);
      if result.None? { return Some(ended), resolved, spent + [one]; }
      ResultsGrow(plan, spent, resolved, one, result.value);
      RowsGrow(before, s.db, plan.run, spent, one);
      resolved, spent := resolved + [result.value], spent + [one];
    }
  }

  // ---- The swap ----

  ghost predicate AllAtomic<B(!new), Out(!new), R(!new)>(start: Db<B>, h: seq<Db<B>>, from: nat, plan: Plan<B, Out, R>,
                                                         spent: seq<StageCall>, resolved: seq<R>) {
    forall k | from <= k < |h| :: Atomic(start, h[k], plan, spent, resolved)
  }

  method Swap<B(!new), Out(!new), R(!new)>(s: Session<B>, plan: Plan<B, Out, R>, resolved: seq<R>, ghost start: Db<B>,
                                           ghost spent: seq<StageCall>)
    returns (o: StageOutcome<R>)
    requires s.Valid() && Midway(start, s.db, plan.run, |plan.calls|)
    requires Results(plan, spent, resolved) && plan.calls != []
    modifies s, plan.committer
    ensures s.Valid() && old(s.history) <= s.history
    ensures plan.committer.calls == old(plan.committer.calls) + [resolved]
    ensures AllAtomic(start, s.history, |old(s.history)|, plan, spent, resolved)
    ensures Atomic(start, s.db, plan, spent, resolved)
    ensures o.Completed? ==>
              && o.resolved == resolved && plan.run in s.db.runs && s.db.runs[plan.run] == Finished(o.outputs)
              && s.db.calls == old(s.db.calls) && s.history == old(s.history) + [s.db]
    ensures o.StageError? ==> o.code == BusinessCommitFailed && s.db.business == start.business
    ensures old(s.Calm()) ==> s.Calm()
    ensures old(s.Calm()) ==>
              o == StageFrom(Rulings(plan, start.business), plan.committer.commit, start.business, |plan.calls|,
                             resolved)
  {
    var replacement := plan.committer.Commit(s.db.business, resolved);
    var tx := s.Transact(CommitRows(s.db, plan.run, replacement));
    match tx {
      case Committed => return Completed(s.db.runs[plan.run].outputs, resolved);
      case Interrupted => return StageInterrupted;
      case Raised => o := Abandon(s, plan, BusinessCommitFailed, start);
    }
  }

  // The outermost handler: an interrupted run that is still open is closed.
  method CancelStage<B(!new), Out(!new), R(!new)>(s: Session<B>, plan: Plan<B, Out, R>, ghost start: Db<B>,
                                                  ghost swapped: bool,
                                                  ghost spent: seq<StageCall>, ghost resolved: seq<R>)
    returns (o: StageOutcome<R>)
    requires s.Valid()
    requires (if swapped then Atomic(start, s.db, plan, spent, resolved) else Untouched(start, s.db, plan.run))
    modifies s
    ensures s.Valid() && old(s.history) <= s.history
    ensures swapped ==> AllAtomic(start, s.history, |old(s.history)|, plan, spent, resolved)
    ensures !swapped ==> AllUntouched(start, s.history, |old(s.history)|, plan.run)
    ensures o == StageCancelled || o == StageInterrupted
    ensures old(s.Calm()) ==> o == StageCancelled && !(plan.run in s.db.runs && s.db.runs[plan.run] == Running)
  {
    var tx := s.Transact(FinishIfRunning(s.db, plan.run, CancelledCode));
    o := if tx == Interrupted then StageInterrupted else StageCancelled;
  }

  lemma UntouchedIsAtomic<B(!new), Out(!new), R(!new)>(start: Db<B>, h: seq<Db<B>>, from: nat, plan: Plan<B, Out, R>,
                                                       spent: seq<StageCall>, resolved: seq<R>)
    requires AllUntouched(start, h, from, plan.run) && !FinishedBefore(start, plan.run)
    ensures AllAtomic(start, h, from, plan, spent, resolved)
  {
  }

  lemma AtomicJoin<B(!new), Out(!new), R(!new)>(start: Db<B>, h: seq<Db<B>>, longer: seq<Db<B>>, from: nat,
                                                plan: Plan<B, Out, R>, spent: seq<StageCall>, resolved: seq<R>)
    requires h <= longer && from <= |h|
    requires AllAtomic(start, h, from, plan, spent, resolved) && AllAtomic(start, longer, |h|, plan, spent, resolved)
    ensures AllAtomic(start, longer, from, plan, spent, resolved)
  {
    forall k | from <= k < |longer| ensures Atomic(start, longer[k], plan, spent, resolved) {
      if k < |h| { assert longer[k] == h[k]; }
    }
  }

  /** `run_complete_stage` on a non-empty plan: on every exit path and in every
      durable state, the business replacement stands exactly when the run is
      finished. `commits` is what the run added to the calls the committer was
      made: it is called at most once, and then with one result of every call, in order.
      A run ID that was finished before is refused and nothing is replaced. */
  method RunCompleteStage<B(!new), Out(!new), R(!new)>(s: Session<B>, plan: Plan<B, Out, R>)
    returns (o: StageOutcome<R>, ghost commits: seq<seq<R>>, ghost spent: seq<StageCall>)
    requires s.Valid() && plan.calls != []
    modifies s, plan.committer
    ensures s.Valid() && old(s.history) <= s.history
    ensures plan.committer.calls == old(plan.committer.calls) + commits
    ensures |commits| <= 1 && forall c | c in commits :: Results(plan, spent, c)
    ensures !FinishedBefore(old(s.db), plan.run) ==>
              AllAtomic(old(s.db), s.history, |old(s.history)|, plan, spent,
                        if commits == [] then [] else commits[0])
    ensures commits == [] ==> AllUntouched(old(s.db), s.history, |old(s.history)|, plan.run)
    ensures FinishedBefore(old(s.db), plan.run) ==> commits == []
    ensures o.Completed? ==>
              commits == [o.resolved] && plan.run in s.db.runs && s.db.runs[plan.run] == Finished(o.outputs)
    ensures AllAsPlanned(plan, spent) && (o.Completed? ==> AllRows(s.db, plan.run, spent))
    ensures plan.capability.Some? ==> commits == [] && forall c | c in spent :: c.attempts == []
    ensures old(s.Calm()) && NewRun(old(s.db), plan.run) && plan.capability.Some? ==>
              RefusedAs(s.db, plan.run, plan.capability.value, o)
    ensures old(s.Calm()) ==> o == StageOf(plan, old(s.db))
    ensures old(s.Calm()) && NewRun(old(s.db), plan.run) ==> forall results | AllAnswer(plan, results) ::
              o == EndOfCommit(plan.committer.commit(old(s.db).business, results), results)
  {
    ghost var start, from, past := s.db, |s.history|, s.history;
    NewRunIsCreated(start, plan.run);
    forall results | NewRun(start, plan.run) && AllAnswer(plan, results)
      ensures StageOf(plan, start) == EndOfCommit(plan.committer.commit(start.business, results), results)
    {
      AnswersCommit(plan, start, results);
    }
    o, commits, spent := RunAndSwap(s, plan);
    if o.StageInterrupted? {
      past := s.history;
      ghost var resolved := if commits == [] then [] else commits[0];
      o := CancelStage(s, plan, start, commits != [], spent, resolved);
      if commits != [] {
        AtomicJoin(start, past, s.history, from, plan, spent, resolved);
      } else if !FinishedBefore(start, plan.run) {
        UntouchedIsAtomic(start, s.history, from, plan, spent, []);
      }
    }
  }

  // The run ID is in no row yet.
  ghost predicate NewRun<B(!new)>(d: Db<B>, run: string) {
    run !in d.runs && CallsOf(d, run) == []
  }

  lemma NewRunIsCreated<B(!new)>(d: Db<B>, run: string)
    ensures NewRun(d, run) <==> MayOpen(d, run, 1)
  {
  }

  // All calls, then the swap; an interrupt is the handler's business.
  method RunAndSwap<B(!new), Out(!new), R(!new)>(s: Session<B>, plan: Plan<B, Out, R>)
    returns (o: StageOutcome<R>, ghost commits: seq<seq<R>>, ghost spent: seq<StageCall>)
    requires s.Valid() && plan.calls != []
    modifies s, plan.committer
    ensures s.Valid() && old(s.history) <= s.history
    ensures plan.committer.calls == old(plan.committer.calls) + commits
    ensures |commits| <= 1 && forall c | c in commits :: Results(plan, spent, c)
    ensures commits != [] ==> !FinishedBefore(old(s.db), plan.run)
    ensures commits != [] ==> AllAtomic(old(s.db), s.history, |old(s.history)|, plan, spent, commits[0])
    ensures commits != [] ==> Atomic(old(s.db), s.db, plan, spent, commits[0])
    ensures commits == [] ==> AllUntouched(old(s.db), s.history, |old(s.history)|, plan.run)
    ensures commits == [] ==> Untouched(old(s.db), s.db, plan.run)
    ensures commits == [] && !FinishedBefore(old(s.db), plan.run) ==>
              AllAtomic(old(s.db), s.history, |old(s.history)|, plan, spent, [])
    ensures o.Completed? ==>
              commits == [o.resolved] && plan.run in s.db.runs && s.db.runs[plan.run] == Finished(o.outputs)
    ensures AllAsPlanned(plan, spent) && (o.Completed? ==> AllRows(s.db, plan.run, spent))
    ensures plan.capability.Some? ==> commits == [] && forall c | c in spent :: c.attempts == []
    ensures old(s.Calm()) && NewRun(old(s.db), plan.run) && plan.capability.Some? ==>
              RefusedAs(s.db, plan.run, plan.capability.value, o)
    ensures old(s.Calm()) ==> s.Calm() && o == StageOf(plan, old(s.db)) && !o.StageInterrupted?
  {
    commits := [];
    ghost var start, from := s.db, |s.history|;
    NewRunIsCreated(start, plan.run);
    var ended: Option<StageOutcome<R>>;
    var resolved: seq<R>;
    ended, resolved, spent := RunCalls(s, plan, start);
    ghost var past := s.history;
    if ended.Some? {
      o := ended.value;
      if !FinishedBefore(start, plan.run) { UntouchedIsAtomic(start, past, from, plan, spent, []); }
      if old(s.Calm()) { NeverInterrupted(plan, start); }
    } else {
      commits := [resolved];
      UntouchedIsAtomic(start, past, from, plan, spent, resolved);
      o := Swap(s, plan, resolved, start, spent);
      AtomicJoin(start, past, s.history, from, plan, spent, resolved);
    }
  }

  lemma NeverInterrupted<B, Out, R>(plan: Plan<B, Out, R>, start: Db<B>)
    ensures !StageOf(plan, start).StageInterrupted?
  {
    var rulings := Rulings(plan, start.business);
    forall i | 0 <= i < |rulings| ensures !rulings[i].ending.StageInterrupted? {
      assert rulings[i] == RulingOf(plan, start.business, i);
      CourseNotInterrupted<B, Out>(RequestFor(plan, i), KeepBusiness, start.business);
    }
    NeverInterruptedFrom(rulings, plan.committer.commit, start.business, 0, []);
  }

  lemma {:induction false} NeverInterruptedFrom<B, R>(rulings: seq<Ruling<R>>,
                                                      commit: (B, seq<R>) -> Option<(B, seq<string>)>, business: B,
                                                      i: nat, resolved: seq<R>)
    requires i <= |rulings| && forall j | 0 <= j < |rulings| :: !rulings[j].ending.StageInterrupted?
    ensures !StageFrom(rulings, commit, business, i, resolved).StageInterrupted?
    decreases |rulings| - i
  {
    if i < |rulings| && rulings[i].result.Some? {
      NeverInterruptedFrom(rulings, commit, business, i + 1, resolved + [rulings[i].result.value]);
    }
  }

  /** An empty plan finishes a run without outputs and never commits. */
  method RunEmptyStage<B(!new)>(s: Session<B>, run: string) returns (o: StageOutcome<()>)
    requires s.Valid()
    modifies s
    ensures s.Valid() && old(s.history) <= s.history
    ensures forall k | |old(s.history)| <= k < |s.history| :: s.history[k].business == old(s.db).business
    ensures o.Completed? ==> o == Completed([], []) && s.db.runs == old(s.db).runs[run := Finished([])]
    ensures old(s.Calm()) ==> s.Calm() && (o.Completed? <==> run !in old(s.db).runs)
  {
    var d := CreateRun(s.db, run);
    var tx := s.Transact(if d.None? then None else FinishRun(d.value, run, Finished([])));
    if tx == Committed { return Completed([], []); }
    if tx == Raised { return StageOther; }
    tx := s.Transact(FinishIfRunning(s.db, run, CancelledCode));
    o := if tx == Interrupted then StageInterrupted else StageCancelled;
  }
}
