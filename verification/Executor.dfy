/**
 The checkpointed executor of `app/pipeline/flows.py` over the tables of
 `app/pipeline/context.py`, `checkpoint.py` and `circuit_breaker.py`.

 A stage is named by its position in `STAGES`.  Money is counted in units of 0.0001 USD and
 progress in tenths.  What a stage does is an input: its cost and how it ends.  Every access
 to the database may succeed, raise, or be the last thing the process does.
 */
module Executor {
  import opened Prelude

  const STAGES := ["define", "search", "collect", "store", "extract", "verify", "find", "detect", "conclude", "trace"]
  const STAGE_STATUS := ["planning", "searching", "collecting", "storing", "extracting",
                         "verifying", "comparing", "detecting", "concluding", "tracing"]
  const N: nat := 10
  const FINAL: nat := 9

  /** `STAGE_PROGRESS` in tenths. */
  function StageProgress(i: nat): nat {
    i + 1
  }

  datatype Run = Run(stage: string, status: string, progress: nat, budget: int, spent: nat, mirror: set<nat>)

  /** What the history of a run shows: stage calls and checkpoint writes. */
  datatype Event = Invoked(stage: nat) | Saved(stage: nat)

  datatype Db = Db(run: Run, checkpoints: map<nat, string>, failedAudits: nat, log: seq<Event>)

  function NewRun(budget: int): Db {
    Db(Run("", "submitted", 0, budget, 0, {}), map[], 0, [])
  }

  datatype Fault = NoFault | Error | Death
  datatype Ending = Ok(detail: string) | NotOk | Raises | Dies

  /** One stage of one attempt; `finalized` says whether a trace stage got to its last commit. */
  datatype StageInput = StageInput(
    start: Fault, cost: nat, ending: Ending, finalized: bool,
    save: Fault, mirror: Fault, readSpend: Fault)

  /** `stages[i]` is used if the attempt reaches stage `i`; `handler` is the commit of an except clause. */
  datatype Attempt = Attempt(readRun: Fault, stages: nat -> StageInput, handler: Fault)

  datatype Outcome = Completed | Paused | Raised | Died

  /** Exactly the first `n` stages are checkpointed. */
  ghost predicate Prefix(checkpoints: map<nat, string>, n: nat) {
    n <= N && forall k: nat :: k in checkpoints <==> k < n
  }

  // ---------------------------------------------------------- single transactions

  /** `_mark_stage_start`, followed by the call of the stage task. */
  function StartStage(db: Db, i: nat): Db
    requires i < N
  {
    db.(run := db.run.(stage := STAGES[i], status := STAGE_STATUS[i], progress := StageProgress(i)),
        log := db.log + [Invoked(i)])
  }

  /** What a stage task does to the run row: it spends, and a trace that gets to its end finalizes the run. */
  function RunTask(db: Db, i: nat, input: StageInput): Db {
    var run := db.run.(spent := db.run.spent + input.cost);
    if i == FINAL && (input.ending.Ok? || input.finalized)
    then db.(run := run.(stage := "done", status := "completed", progress := 10))
    else db.(run := run)
  }

  /** `CheckpointStore.save`: upsert keyed by (run, stage). */
  function SaveCheckpoint(db: Db, i: nat, detail: string): Db {
    db.(checkpoints := db.checkpoints[i := detail], log := db.log + [Saved(i)])
  }

  function WriteMirror(db: Db, completed: set<nat>): Db {
    db.(run := db.run.(mirror := completed))
  }

  function MarkPaused(db: Db): Db {
    db.(run := db.run.(status := "paused"))
  }

  function MarkFailed(db: Db): Db {
    db.(run := db.run.(status := "failed"), failedAudits := db.failedAudits + 1)
  }

  /** `CircuitBreaker.check`: the run budget first, then a tenth of it; the spend is that of the whole run. */
  predicate Breached(spent: int, budget: int) {
    spent > budget || 10 * spent > budget
  }

  // -------------------------------------------------------------------- one attempt

  function AfterHandler(fault: Fault, marked: Db, unmarked: Db, outcome: Outcome): (Db, Outcome) {
    match fault
    case NoFault => (marked, outcome)
    case Error => (unmarked, Raised)
    case Death => (unmarked, Died)
  }

  /** The `except Exception` clause. */
  function Fail(db: Db, a: Attempt): (Db, Outcome) {
    AfterHandler(a.handler, MarkFailed(db), db, Raised)
  }

  /** A database access inside the try block that did not succeed. */
  function Faulty(db: Db, fault: Fault, a: Attempt): (Db, Outcome)
    requires fault != NoFault
  {
    if fault == Death then (db, Died) else Fail(db, a)
  }

  /** `_execute_stages` from stage `i` on, with the snapshot of completed stages and the budget read at its start. */
  function Execute(db: Db, i: nat, snapshot: set<nat>, budget: int, a: Attempt): (Db, Outcome)
    requires i <= N
    decreases N - i, 2
  {
    if i == N then (db, Completed)
    else if i in snapshot then Execute(db, i + 1, snapshot, budget, a)
    else
      var input := a.stages(i);
      if input.start != NoFault then Faulty(db, input.start, a)
      else
        var ran := RunTask(StartStage(db, i), i, input);
        match input.ending
        case Dies => (ran, Died)
        case Raises => Fail(ran, a)
        case NotOk => Fail(ran, a)
        case Ok(detail) =>
          if input.save != NoFault then Faulty(ran, input.save, a)
          else ExecuteSaved(SaveCheckpoint(ran, i, detail), i, snapshot, budget, a)
  }

  /** The same right after the checkpoint of stage `i` was saved. */
  function ExecuteSaved(db: Db, i: nat, snapshot: set<nat>, budget: int, a: Attempt): (Db, Outcome)
    requires i < N
    decreases N - i, 1
  {
    if a.stages(i).mirror != NoFault then Faulty(db, a.stages(i).mirror, a)
    else ExecuteMirrored(WriteMirror(db, db.checkpoints.Keys), i, snapshot, budget, a)
  }

  /** The same right after the mirror was written: the budget check, except after the last stage. */
  function ExecuteMirrored(db: Db, i: nat, snapshot: set<nat>, budget: int, a: Attempt): (Db, Outcome)
    requires i < N
    decreases N - i, 0
  {
    if i == FINAL then Execute(db, i + 1, snapshot, budget, a)
    else if a.stages(i).readSpend != NoFault then Faulty(db, a.stages(i).readSpend, a)
    else if Breached(db.run.spent, budget) then AfterHandler(a.handler, MarkPaused(db), db, Paused)
    else Execute(db, i + 1, snapshot, budget, a)
  }

  /** The reads before the try block touch nothing; a fault there ends the attempt unrecorded. */
  function RunAttempt(db: Db, a: Attempt): (Db, Outcome) {
    match a.readRun
    case Error => (db, Raised)
    case Death => (db, Died)
    case NoFault => Execute(db, 0, db.checkpoints.Keys, db.run.budget, a)
  }

  // ------------------------------------------------------------------- the class

  /** The pipeline of one run; assigning `db` is a commit. */
  class Pipeline {
    var db: Db

    constructor (budget: int)
      ensures db == NewRun(budget)
    {
      db := NewRun(budget);
    }

    /** The `except Exception` clause: mark the run failed, append its audit row, re-raise. */
    method HandleFailure(a: Attempt) returns (outcome: Outcome)
      modifies this
      ensures (db, outcome) == Fail(old(db), a)
    {
      match a.handler
      case Death => return Died;
      case Error => return Raised;
      case NoFault =>
        db := MarkFailed(db);
        return Raised;
    }

    method HandleFault(fault: Fault, a: Attempt) returns (outcome: Outcome)
      requires fault != NoFault
      modifies this
      ensures (db, outcome) == Faulty(old(db), fault, a)
    {
      if fault == Death {
        return Died;
      }
      outcome := HandleFailure(a);
    }

    method ExecuteStages(a: Attempt) returns (outcome: Outcome)
      modifies this
      ensures (db, outcome) == RunAttempt(old(db), a)
    {
      if a.readRun != NoFault {
        return if a.readRun == Error then Raised else Died;
      }
      var completed := db.checkpoints.Keys;
      var runBudget := db.run.budget;
      for i := 0 to N
        invariant RunAttempt(old(db), a) == Execute(db, i, completed, runBudget, a)
      {
        if i in completed {
          continue;
        }
        var input := a.stages(i);
        if input.start != NoFault {
          outcome := HandleFault(input.start, a);
          return;
        }
        db := StartStage(db, i);
        db := RunTask(db, i, input);
        if input.ending.Dies? {
          return Died;
        }
        if !input.ending.Ok? {
          outcome := HandleFailure(a);
          return;
        }
        if input.save != NoFault {
          outcome := HandleFault(input.save, a);
          return;
        }
        db := SaveCheckpoint(db, i, input.ending.detail);
        assert RunAttempt(old(db), a) == ExecuteSaved(db, i, completed, runBudget, a);
        if input.mirror != NoFault {
          outcome := HandleFault(input.mirror, a);
          return;
        }
        db := WriteMirror(db, db.checkpoints.Keys);
        assert RunAttempt(old(db), a) == ExecuteMirrored(db, i, completed, runBudget, a);
        if i != FINAL {
          if input.readSpend != NoFault {
            outcome := HandleFault(input.readSpend, a);
            return;
          }
          if Breached(db.run.spent, runBudget) {
            match a.handler {
              case Death => return Died;
              case Error => return Raised;
              case NoFault =>
                db := MarkPaused(db);
                return Paused;
            }
          }
        }
      }
      return Completed;
    }
  }
}
