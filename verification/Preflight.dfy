// Local budget checks and the cost maxima they bound a stage with.
module Preflight {
  import opened Basics

  type Price = real

  datatype Budgets = Budgets(
    transportAttemptCap: int, backoffLower: real, backoffUpper: real, deadlineSeconds: real,
    maxInputBytes: int, inputTokenBudget: int, outputTokenBudget: int, plannedOutputTokens: int,
    modelContextTokens: int, modelMaxOutputTokens: int, perRunCallCeiling: int, plannedCallCount: int,
    perInvocationCostCeiling: Option<Price>, perRunCostCeiling: Option<Price>,
    inputCostPerMillion: Option<Price>, outputCostPerMillion: Option<Price>)

  datatype Code =
    | CapabilityMismatch | BudgetExceeded | ContextOverflow | CredentialDetected
    | TransportTimeout | TransportProviderError | ResponseValidationFailed
    | DeterministicEnrichmentFailed | BusinessCommitFailed | CancelledCode | OtherCode(name: string)

  datatype Metrics = Metrics(inputBytes: nat, inputTokens: nat, outputTokens: nat,
                             invocationCost: Option<Price>, runCost: Option<Price>)

  datatype Verdict = Fits(metrics: Metrics) | Refused(code: Code)

  // One token per three UTF-8 bytes, rounded up.
  function EstimateTokens(bytes: nat): nat {
    if bytes == 0 then 0 else (bytes + 2) / 3
  }

  predicate ShapeValid(b: Budgets) {
    && b.transportAttemptCap > 0 && b.maxInputBytes > 0 && b.inputTokenBudget > 0 && b.outputTokenBudget > 0
    && b.plannedOutputTokens > 0 && b.modelContextTokens > 0 && b.modelMaxOutputTokens > 0
    && b.perRunCallCeiling > 0 && b.plannedCallCount > 0
    && b.deadlineSeconds > 0.0 && b.backoffLower >= 0.0 && b.backoffUpper >= b.backoffLower
  }

  // `k * x` for a whole number `k`, as the sum it stands for.
  function Times(k: nat, x: Price): Price {
    if k == 0 then 0.0 else Times(k - 1, x) + x
  }

  lemma {:induction false} TimesIsProduct(k: nat, x: Price)
    ensures Times(k, x) == k as real * x
  {
    if k > 0 {
      TimesIsProduct(k - 1, x);
      assert k as real * x == (k - 1) as real * x + x;
    }
  }

  function Cost(inputTokens: nat, outputTokens: nat, inputPrice: Price, outputPrice: Price): Price {
    (Times(inputTokens, inputPrice) + Times(outputTokens, outputPrice)) / 1000000.0
  }

  predicate Above(value: Price, ceiling: Option<Price>) {
    ceiling.Some? && value > ceiling.value
  }

  // `preflight_call` on an input of `bytes` bytes; `secret` is the credential scan's answer.
  function PreflightCall(bytes: nat, secret: bool, b: Budgets): Verdict {
    var tokens := EstimateTokens(bytes);
    if !ShapeValid(b) then Refused(CapabilityMismatch)
    else if bytes > b.maxInputBytes then Refused(BudgetExceeded)
    else if tokens > b.inputTokenBudget then Refused(BudgetExceeded)
    else if b.plannedOutputTokens > b.outputTokenBudget then Refused(BudgetExceeded)
    else if b.plannedOutputTokens > b.modelMaxOutputTokens then Refused(ContextOverflow)
    else if tokens + b.plannedOutputTokens > b.modelContextTokens then Refused(ContextOverflow)
    else if b.plannedCallCount > b.perRunCallCeiling then Refused(BudgetExceeded)
    else if secret then Refused(CredentialDetected)
    else if b.inputCostPerMillion.None? && b.outputCostPerMillion.None?
    then Fits(Metrics(bytes, tokens, b.plannedOutputTokens, None, None))
    else if b.inputCostPerMillion.None? || b.outputCostPerMillion.None?
            || b.inputCostPerMillion.value < 0.0 || b.outputCostPerMillion.value < 0.0
    then Refused(CapabilityMismatch)
    else
      var attempt := Cost(tokens, b.plannedOutputTokens, b.inputCostPerMillion.value, b.outputCostPerMillion.value);
      var invocation := Times(b.transportAttemptCap * 2, attempt);
      var run := Times(b.plannedCallCount, invocation);
      if Above(invocation, b.perInvocationCostCeiling) || Above(run, b.perRunCostCeiling) then Refused(BudgetExceeded)
      else Fits(Metrics(bytes, tokens, b.plannedOutputTokens, Some(invocation), Some(run)))
  }

  // ---- What preflight decides ----

  // What the provider charges for one attempt: the two prices are per million tokens.
  ghost function Bill(inputTokens: int, outputTokens: int, inputPrice: Price, outputPrice: Price): Price {
    (inputTokens as real * inputPrice + outputTokens as real * outputPrice) / 1000000.0
  }

  lemma CostIsBill(i: nat, o: nat, inputPrice: Price, outputPrice: Price)
    ensures Cost(i, o, inputPrice, outputPrice) == Bill(i, o, inputPrice, outputPrice)
  {
    TimesIsProduct(i, inputPrice);
    TimesIsProduct(o, outputPrice);
  }

  // Twice the attempt cap of attempts, each of the estimated tokens.
  ghost function InvocationMaximum(tokens: nat, b: Budgets): Price
    requires Declared(b)
  {
    (2 * b.transportAttemptCap) as real
    * Bill(tokens, b.plannedOutputTokens, b.inputCostPerMillion.value, b.outputCostPerMillion.value)
  }

  // A declaration of prices names both, and neither is negative.
  ghost predicate Declared(b: Budgets) {
    && b.inputCostPerMillion.Some? && b.outputCostPerMillion.Some?
    && b.inputCostPerMillion.value >= 0.0 && b.outputCostPerMillion.value >= 0.0
  }

  ghost function Counts(b: Budgets): set<int> {
    {b.transportAttemptCap, b.maxInputBytes, b.inputTokenBudget, b.outputTokenBudget, b.plannedOutputTokens,
     b.modelContextTokens, b.modelMaxOutputTokens, b.perRunCallCeiling, b.plannedCallCount}
  }

  datatype Check = Check(fails: bool, code: Code)

  // What is checked, in order, of an input of `bytes` bytes estimated at `tokens` tokens.
  ghost function Checks(bytes: nat, tokens: nat, secret: bool, b: Budgets): seq<Check> {
    var maximum := if Declared(b) then InvocationMaximum(tokens, b) else 0.0;
    [Check(exists n :: n in Counts(b) && n <= 0, CapabilityMismatch),
     Check(b.deadlineSeconds <= 0.0 || b.backoffLower < 0.0 || b.backoffUpper < b.backoffLower, CapabilityMismatch),
     Check(bytes > b.maxInputBytes, BudgetExceeded),
     Check(tokens > b.inputTokenBudget, BudgetExceeded),
     Check(b.plannedOutputTokens > b.outputTokenBudget, BudgetExceeded),
     Check(b.plannedOutputTokens > b.modelMaxOutputTokens, ContextOverflow),
     Check(tokens + b.plannedOutputTokens > b.modelContextTokens, ContextOverflow),
     Check(b.plannedCallCount > b.perRunCallCeiling, BudgetExceeded),
     Check(secret, CredentialDetected),
     Check((b.inputCostPerMillion.Some? || b.outputCostPerMillion.Some?) && !Declared(b), CapabilityMismatch),
     Check(Declared(b) && b.perInvocationCostCeiling.Some? && maximum > b.perInvocationCostCeiling.value,
           BudgetExceeded),
     Check(Declared(b) && b.perRunCostCeiling.Some?
           && b.plannedCallCount as real * maximum > b.perRunCostCeiling.value, BudgetExceeded)]
  }

  ghost predicate FirstToFail(checks: seq<Check>, i: nat) {
    i < |checks| && checks[i].fails && forall j: nat | j < i :: !checks[j].fails
  }

  /** A call is refused with the code of the first check that fails, and fits if
      none does. Three bytes make a token, the last one begun counted whole, and
      the maxima are the bill of twice the attempt cap of attempts, for this call
      and for every planned one. */
  lemma PreflightMeans(bytes: nat, tokens: nat, secret: bool, b: Budgets)
    requires 3 * tokens - 3 < bytes <= 3 * tokens
    ensures match PreflightCall(bytes, secret, b)
            case Refused(code) =>
              exists i: nat :: FirstToFail(Checks(bytes, tokens, secret, b), i)
                          && Checks(bytes, tokens, secret, b)[i].code == code
            case Fits(m) =>
              && (forall c | c in Checks(bytes, tokens, secret, b) :: !c.fails)
              && m.inputBytes == bytes && m.inputTokens == tokens && m.outputTokens == b.plannedOutputTokens
              && (!Declared(b) ==> m.invocationCost.None? && m.runCost.None?)
              && (Declared(b) ==>
                    && m.invocationCost == Some(InvocationMaximum(tokens, b))
                    && m.runCost == Some(b.plannedCallCount as real * InvocationMaximum(tokens, b)))
  {
    var c := Checks(bytes, tokens, secret, b);
    ShapeChecked(bytes, tokens, secret, b);
    if ShapeValid(b) && Declared(b) { MaximumComputed(tokens, b); }
    var i := if c[0].fails then 0 else if c[1].fails then 1 else if c[2].fails then 2 else if c[3].fails then 3
             else if c[4].fails then 4 else if c[5].fails then 5 else if c[6].fails then 6 else if c[7].fails then 7
             else if c[8].fails then 8 else if c[9].fails then 9 else if c[10].fails then 10 else 11;
    assert c[i].fails ==> FirstToFail(c, i);
  }

  lemma ShapeChecked(bytes: nat, tokens: nat, secret: bool, b: Budgets)
    ensures var c := Checks(bytes, tokens, secret, b); ShapeValid(b) <==> !c[0].fails && !c[1].fails
  {
    var counts := Counts(b);
    if !Checks(bytes, tokens, secret, b)[0].fails {
      assert b.transportAttemptCap in counts && b.maxInputBytes in counts && b.inputTokenBudget in counts;
      assert b.outputTokenBudget in counts && b.plannedOutputTokens in counts && b.modelContextTokens in counts;
      assert b.modelMaxOutputTokens in counts && b.perRunCallCeiling in counts && b.plannedCallCount in counts;
    }
  }

  lemma MaximumComputed(tokens: nat, b: Budgets)
    requires Declared(b) && b.plannedOutputTokens > 0 && b.transportAttemptCap > 0 && b.plannedCallCount > 0
    ensures var attempt :=
              Cost(tokens, b.plannedOutputTokens, b.inputCostPerMillion.value, b.outputCostPerMillion.value);
            && Times(b.transportAttemptCap * 2, attempt) == InvocationMaximum(tokens, b)
            && Times(b.plannedCallCount, Times(b.transportAttemptCap * 2, attempt))
               == b.plannedCallCount as real * InvocationMaximum(tokens, b)
  {
    var ip, op := b.inputCostPerMillion.value, b.outputCostPerMillion.value;
    CostIsBill(tokens, b.plannedOutputTokens, ip, op);
    TimesIsProduct(b.transportAttemptCap * 2, Bill(tokens, b.plannedOutputTokens, ip, op));
    TimesIsProduct(b.plannedCallCount, InvocationMaximum(tokens, b));
  }

  // ---- What the maxima are good for ----

  // One physical attempt and the tokens the provider billed for it.
  datatype Attempt = Attempt(startedAt: real, inputTokens: nat, outputTokens: nat)

  // What the attempts are billed.
  ghost function Spent(attempts: seq<Attempt>, inputPrice: Price, outputPrice: Price): Price {
    if attempts == [] then 0.0
    else Spent(attempts[..|attempts| - 1], inputPrice, outputPrice)
         + Bill(attempts[|attempts| - 1].inputTokens, attempts[|attempts| - 1].outputTokens, inputPrice, outputPrice)
  }

  ghost predicate WithinEstimate(attempts: seq<Attempt>, m: Metrics) {
    forall a | a in attempts :: a.inputTokens <= m.inputTokens && a.outputTokens <= m.outputTokens
  }

  lemma {:induction false} TimesMonotone(k: nat, n: nat, x: Price, y: Price)
    requires k <= n && 0.0 <= x <= y
    ensures 0.0 <= Times(k, x) <= Times(n, y)
  {
    if n > 0 {
      TimesMonotone(if k == n then k - 1 else k, n - 1, x, y);
    }
  }

  lemma {:induction false} TimesReflects(n: nat, x: Price, y: Price)
    requires n > 0 && Times(n, x) <= Times(n, y)
    ensures x <= y
  {
    if x > y { TimesStrict(n, y, x); }
  }

  lemma {:induction false} TimesStrict(n: nat, x: Price, y: Price)
    requires n > 0 && x < y
    ensures Times(n, x) < Times(n, y)
  {
    if n > 1 { TimesStrict(n - 1, x, y); }
  }

  lemma CostMonotone(i: nat, o: nat, i': nat, o': nat, inputPrice: Price, outputPrice: Price)
    requires i <= i' && o <= o' && inputPrice >= 0.0 && outputPrice >= 0.0
    ensures 0.0 <= Cost(i, o, inputPrice, outputPrice) <= Cost(i', o', inputPrice, outputPrice)
  {
    TimesMonotone(i, i', inputPrice, inputPrice);
    TimesMonotone(o, o', outputPrice, outputPrice);
  }

  lemma {:induction false} SpentPerAttempt(attempts: seq<Attempt>, m: Metrics, inputPrice: Price, outputPrice: Price)
    requires WithinEstimate(attempts, m) && inputPrice >= 0.0 && outputPrice >= 0.0
    ensures Spent(attempts, inputPrice, outputPrice)
            <= Times(|attempts|, Cost(m.inputTokens, m.outputTokens, inputPrice, outputPrice))
  {
    if attempts != [] {
      var k := |attempts| - 1;
      SpentPerAttempt(attempts[..k], m, inputPrice, outputPrice);
      CostIsBill(attempts[k].inputTokens, attempts[k].outputTokens, inputPrice, outputPrice);
      CostMonotone(attempts[k].inputTokens, attempts[k].outputTokens, m.inputTokens, m.outputTokens, inputPrice,
                   outputPrice);
    }
  }

  /** An invocation that makes at most twice the attempt cap of attempts, each
      within the estimate, costs at most the maximum preflight computed. */
  lemma InvocationCostBound(bytes: nat, secret: bool, b: Budgets, attempts: seq<Attempt>)
    requires PreflightCall(bytes, secret, b).Fits?
    requires var m := PreflightCall(bytes, secret, b).metrics;
             m.invocationCost.Some? && WithinEstimate(attempts, m) && |attempts| <= 2 * b.transportAttemptCap
    ensures var m := PreflightCall(bytes, secret, b).metrics;
            Spent(attempts, b.inputCostPerMillion.value, b.outputCostPerMillion.value) <= m.invocationCost.value
  {
    var m := PreflightCall(bytes, secret, b).metrics;
    var ip, op := b.inputCostPerMillion.value, b.outputCostPerMillion.value;
    SpentPerAttempt(attempts, m, ip, op);
    CostMonotone(0, 0, m.inputTokens, m.outputTokens, ip, op);
    var one := Cost(m.inputTokens, m.outputTokens, ip, op);
    TimesMonotone(|attempts|, 2 * b.transportAttemptCap, one, one);
  }

  // One call of a stage: its input and the attempts its invocation made.
  datatype StageCall = StageCall(bytes: nat, secret: bool, attempts: seq<Attempt>)

  ghost function StageSpent(calls: seq<StageCall>, inputPrice: Price, outputPrice: Price): Price {
    if calls == [] then 0.0
    else StageSpent(calls[..|calls| - 1], inputPrice, outputPrice)
         + Spent(calls[|calls| - 1].attempts, inputPrice, outputPrice)
  }

  // A call whose attempts, if it made any, passed preflight and kept to its bounds.
  ghost predicate Kept(c: StageCall, b: Budgets) {
    c.attempts != [] ==>
      && PreflightCall(c.bytes, c.secret, b).Fits?
      && WithinEstimate(c.attempts, PreflightCall(c.bytes, c.secret, b).metrics)
      && |c.attempts| <= 2 * b.transportAttemptCap
  }

  /** A whole stage stays under the run ceiling, although its calls have inputs
      of different sizes and each was checked on its own size only. */
  lemma StageCostBound(calls: seq<StageCall>, b: Budgets)
    requires |calls| <= b.plannedCallCount && b.perRunCostCeiling.Some? && b.perRunCostCeiling.value >= 0.0
    requires ShapeValid(b) && b.inputCostPerMillion.Some? && b.outputCostPerMillion.Some?
    requires forall c | c in calls :: Kept(c, b)
    ensures StageSpent(calls, b.inputCostPerMillion.value, b.outputCostPerMillion.value) <= b.perRunCostCeiling.value
  {
    var ip, op := b.inputCostPerMillion.value, b.outputCostPerMillion.value;
    var share := Share(b.perRunCostCeiling.value, b.plannedCallCount);
    forall c | c in calls ensures Spent(c.attempts, ip, op) <= share {
      CallBelowShare(c, b, share);
    }
    SpentByShares(calls, ip, op, share);
    TimesMonotone(|calls|, b.plannedCallCount, share, share);
  }

  // The ceiling as equal shares of the planned calls.
  lemma Share(ceiling: Price, n: nat) returns (share: Price)
    requires ceiling >= 0.0 && n > 0
    ensures share >= 0.0 && Times(n, share) == ceiling
  {
    share := ceiling / n as real;
    TimesIsProduct(n, share);
  }

  lemma {:induction false} SpentByShares(calls: seq<StageCall>, ip: Price, op: Price, share: Price)
    requires forall c | c in calls :: Spent(c.attempts, ip, op) <= share
    ensures StageSpent(calls, ip, op) <= Times(|calls|, share)
  {
    if calls != [] {
      SpentByShares(calls[..|calls| - 1], ip, op, share);
    }
  }

  // Every call is checked as if all calls were as large as itself.
  lemma CallBelowShare(c: StageCall, b: Budgets, share: Price)
    requires ShapeValid(b) && b.perRunCostCeiling.Some? && Times(b.plannedCallCount, share) == b.perRunCostCeiling.value
    requires b.inputCostPerMillion.Some? && b.outputCostPerMillion.Some? && Kept(c, b) && share >= 0.0
    ensures Spent(c.attempts, b.inputCostPerMillion.value, b.outputCostPerMillion.value) <= share
  {
    if c.attempts != [] {
      InvocationCostBound(c.bytes, c.secret, b, c.attempts);
      TimesReflects(b.plannedCallCount, PreflightCall(c.bytes, c.secret, b).metrics.invocationCost.value, share);
    }
  }
}
