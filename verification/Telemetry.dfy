// The durable rows of a run and its calls, and the transactions that move them.
module Telemetry {
  import opened Basics
  import opened Preflight

  datatype RunState = Running | Finished(outputs: seq<string>) | Broken(code: Code)

  datatype CallState = Active | Succeeded | FailedWith(code: Code)

  datatype Call = Call(state: CallState, transportRetries: nat, schemaRetries: nat)

  // `business` stands for every table a stage replaces.
  datatype Db<B> = Db(runs: map<string, RunState>, calls: map<string, seq<Call>>, business: B)

  datatype RetryKind = Transport | Schema

  function CallsOf<B>(db: Db<B>, run: string): seq<Call> {
    if run in db.calls then db.calls[run] else []
  }

  // ---- The statements; None is a refused statement, which rolls back ----

  function CreateRun<B>(db: Db<B>, run: string): Option<Db<B>> {
    if run in db.runs then None else Some(db.(runs := db.runs[run := Running]))
  }

  function RequireRunning<B>(db: Db<B>, run: string): Option<Db<B>> {
    if run in db.runs && db.runs[run] == Running then Some(db) else None
  }

  // Call indexes count from one and have no gaps.
  function CreateCall<B>(db: Db<B>, run: string, index: nat): Option<Db<B>> {
    if index != |CallsOf(db, run)| + 1 then None
    else Some(db.(calls := db.calls[run := CallsOf(db, run) + [Call(Active, 0, 0)]]))
  }

  function SetCall<B>(db: Db<B>, run: string, index: nat, call: Call): Db<B>
    requires 1 <= index <= |CallsOf(db, run)|
  {
    db.(calls := db.calls[run := CallsOf(db, run)[index - 1 := call]])
  }

  predicate ActiveCall<B>(db: Db<B>, run: string, index: nat) {
    1 <= index <= |CallsOf(db, run)| && CallsOf(db, run)[index - 1].state == Active
  }

  function IncrementRetry<B>(db: Db<B>, run: string, index: nat, kind: RetryKind): Option<Db<B>> {
    if !ActiveCall(db, run, index) then None
    else
      var c := CallsOf(db, run)[index - 1];
      Some(SetCall(db, run, index, match kind
        case Transport => c.(transportRetries := c.transportRetries + 1)
        case Schema => c.(schemaRetries := c.schemaRetries + 1)))
  }

  function FinishCall<B>(db: Db<B>, run: string, index: nat, state: CallState): Option<Db<B>> {
    if !ActiveCall(db, run, index) then None
    else Some(SetCall(db, run, index, CallsOf(db, run)[index - 1].(state := state)))
  }

  function FinishRun<B>(db: Db<B>, run: string, state: RunState): Option<Db<B>> {
    if run in db.runs && db.runs[run] == Running then Some(db.(runs := db.runs[run := state])) else None
  }

  // ---- The connection ----

  // How one transaction, or one point where control can be interrupted, goes.
  datatype Fate = Fine | Error | InterruptBefore | InterruptAfter

  datatype Tx = Committed | Raised | Interrupted

  ghost predicate EndsIn<B(!new)>(h: seq<Db<B>>, d: Db<B>) {
    h != [] && h[|h| - 1] == d
  }

  class Session<B(!new)> {
    const fates: nat -> Fate
    var step: nat
    var db: Db<B>
    ghost var history: seq<Db<B>>  // every state that was ever durable

    ghost predicate Valid()
      reads this
    {
      EndsIn(history, db)
    }

    ghost predicate Calm()
      reads this
    {
      forall t: nat | step <= t :: fates(t) == Fine
    }

    constructor (fates: nat -> Fate, db: Db<B>)
      ensures Valid() && this.fates == fates && this.db == db && step == 0 && history == [db]
    {
      this.fates, step, this.db, history := fates, 0, db, [db];
    }

    // One transaction with the given outcome of its statements: it takes effect
    // as a whole or not at all, and an interrupt may land on either side.
    method Transact(next: Option<Db<B>>) returns (tx: Tx)
      requires Valid()
      modifies this
      ensures Valid() && history == old(history) + [db] && step == old(step) + 1
      ensures db == old(db) || Some(db) == next
      ensures tx == Committed ==> Some(db) == next
      ensures tx == Raised ==> db == old(db)
      ensures next.None? ==> tx != Committed && db == old(db)
      ensures old(Calm()) ==> Calm() && tx == (if next.Some? then Committed else Raised)
    {
      var fate := fates(step);
      step := step + 1;
      if fate == InterruptBefore || (fate == InterruptAfter && next.None?) {
        tx := Interrupted;
      } else if fate == Error || next.None? {
        tx := Raised;
      } else {
        db := next.value;
        tx := if fate == Fine then Committed else Interrupted;
      }
      history := history + [db];
    }

    // A point outside any transaction where an interrupt may land.
    method Interruptible() returns (interrupted: bool)
      requires Valid()
      modifies `step
      ensures Valid() && step == old(step) + 1
      ensures old(Calm()) ==> Calm() && !interrupted
    {
      var fate := fates(step);
      step := step + 1;
      interrupted := fate == InterruptBefore || fate == InterruptAfter;
    }
  }
}
