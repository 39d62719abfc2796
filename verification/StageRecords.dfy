/**
 What the run row and the checkpoints say about the stages that were called: which detail each
 checkpoint holds, what was spent, and when the mirror and a pause can be trusted.
 */
module StageRecords {
  import opened Prelude
  import opened Executor
  import ExecutorProofs
  import Interleaving

  /** What the stages called in `events` cost. */
  function CostOf(events: seq<Event>, a: Attempt): nat {
    if events == [] then 0
    else
      var n := |events| - 1;
      CostOf(events[..n], a) + (if events[n].Invoked? then a.stages(events[n].stage).cost else 0)
  }

  /** The stage called last in `events`. */
  function LastCalled(events: seq<Event>): Option<nat> {
    if events == [] then None
    else
      match events[|events| - 1]
      case Invoked(i) => Some(i)
      case Saved(_) => LastCalled(events[..|events| - 1])
  }

  lemma LogSnoc(log: seq<Event>, from: nat, event: Event, a: Attempt)
    requires from <= |log|
    ensures CostOf((log + [event])[from..], a)
         == CostOf(log[from..], a) + (if event.Invoked? then a.stages(event.stage).cost else 0)
    ensures LastCalled((log + [event])[from..]) == if event.Invoked? then Some(event.stage) else LastCalled(log[from..])
  {
    assert (log + [event])[from..] == log[from..] + [event];
    assert (log[from..] + [event])[..|log[from..]|] == log[from..];
  }

  /** The stage returned, and its start and its save went through. */
  predicate Delivered(a: Attempt, k: nat, detail: string) {
    a.stages(k).ending == Ok(detail) && a.stages(k).start == a.stages(k).save == NoFault
  }

  /** Checkpoints from before stay, and each new one holds what its stage returned in this attempt. */
  ghost predicate Kept(first: Db, db: Db, a: Attempt) {
    && (forall k | k in first.checkpoints :: k in db.checkpoints && db.checkpoints[k] == first.checkpoints[k])
    && (forall k | k in db.checkpoints && k !in first.checkpoints :: k < N && Delivered(a, k, db.checkpoints[k]))
  }

  /** The spend is the sum of the costs of the stages called, and the row names the last of them. */
  ghost predicate Spent(first: Db, db: Db, a: Attempt) {
    && first.log <= db.log
    && var tail := db.log[|first.log|..];
    && db.run.spent == first.run.spent + CostOf(tail, a)
    && (LastCalled(tail).Some? ==>
          && LastCalled(tail).value < N
          && (db.run.stage == STAGES[LastCalled(tail).value]
              || (LastCalled(tail).value == FINAL && db.run.stage == "done")))
  }

  /** The mirror is up to date, if there is anything new. */
  ghost predicate Mirrored(first: Db, db: Db) {
    db.checkpoints == first.checkpoints || db.run.mirror == db.checkpoints.Keys
  }

  /** The mirror of each new checkpoint was written and its budget check read. */
  ghost predicate Checked(first: Db, db: Db, a: Attempt) {
    forall k | k in db.checkpoints && k !in first.checkpoints ::
      a.stages(k).mirror == NoFault && (k != FINAL ==> a.stages(k).readSpend == NoFault)
  }

  ghost predicate AllBelow(db: Db, i: nat) {
    forall k: nat | k < i :: k in db.checkpoints
  }

  ghost predicate Ended(first: Db, end: (Db, Outcome), a: Attempt) {
    && Kept(first, end.0, a) && Spent(first, end.0, a)
    && (end.1 in {Paused, Completed} ==> Mirrored(first, end.0) && Checked(first, end.0, a))
    && (end.1 == Paused ==> end.0.checkpoints != first.checkpoints && 10 * end.0.run.spent > first.run.budget)
    && (end.1 == Completed ==> AllBelow(end.0, N))
  }

  /** A failure or a death leaves the records as they were. */
  lemma FaultEnds(first: Db, db: Db, a: Attempt)
    requires Kept(first, db, a) && Spent(first, db, a)
    ensures Ended(first, Fail(db, a), a) && Ended(first, (db, Died), a)
  {
  }

  lemma StartSpends(first: Db, db: Db, i: nat, a: Attempt)
    requires Kept(first, db, a) && Spent(first, db, a) && i < N
    ensures var ran := RunTask(StartStage(db, i), i, a.stages(i)); Kept(first, ran, a) && Spent(first, ran, a)
  {
    LogSnoc(db.log, |first.log|, Invoked(i), a);
  }

  lemma SaveKeeps(first: Db, ran: Db, i: nat, a: Attempt)
    requires Kept(first, ran, a) && Spent(first, ran, a) && i < N && i !in first.checkpoints
    requires a.stages(i).ending.Ok? && a.stages(i).start == a.stages(i).save == NoFault
    ensures var saved := SaveCheckpoint(ran, i, a.stages(i).ending.detail);
      Kept(first, saved, a) && Spent(first, saved, a)
  {
    LogSnoc(ran.log, |first.log|, Saved(i), a);
  }

  /** The loop between two stages. */
  ghost predicate Between(first: Db, db: Db, i: nat, a: Attempt) {
    && Kept(first, db, a) && Spent(first, db, a) && Mirrored(first, db) && Checked(first, db, a) && AllBelow(db, i)
  }

  /** Right after the checkpoint of stage `i` was saved. */
  ghost predicate After(first: Db, db: Db, i: nat, a: Attempt) {
    && Kept(first, db, a) && Spent(first, db, a) && AllBelow(db, i + 1) && i !in first.checkpoints
    && forall k | k in db.checkpoints && k !in first.checkpoints && k != i ::
         a.stages(k).mirror == NoFault && (k != FINAL ==> a.stages(k).readSpend == NoFault)
  }

  lemma {:induction false} ExecuteEnds(first: Db, db: Db, i: nat, a: Attempt)
    requires i <= N && Between(first, db, i, a)
    ensures Ended(first, Execute(db, i, first.checkpoints.Keys, first.run.budget, a), a)
    decreases N - i, 2
  {
    if i == N {
    } else if i in first.checkpoints {
      ExecuteEnds(first, db, i + 1, a);
    } else {
      var input := a.stages(i);
      FaultEnds(first, db, a);
      if input.start == NoFault {
        var ran := RunTask(StartStage(db, i), i, input);
        StartSpends(first, db, i, a);
        FaultEnds(first, ran, a);
        if input.ending.Ok? && input.save == NoFault {
          SaveKeeps(first, ran, i, a);
          SavedEnds(first, SaveCheckpoint(ran, i, input.ending.detail), i, a);
        }
      }
    }
  }

  lemma {:induction false} SavedEnds(first: Db, db: Db, i: nat, a: Attempt)
    requires i < N && After(first, db, i, a)
    ensures Ended(first, ExecuteSaved(db, i, first.checkpoints.Keys, first.run.budget, a), a)
    decreases N - i, 1
  {
    FaultEnds(first, db, a);
    if a.stages(i).mirror == NoFault {
      MirroredEnds(first, WriteMirror(db, db.checkpoints.Keys), i, a);
    }
  }

  lemma {:induction false} MirroredEnds(first: Db, db: Db, i: nat, a: Attempt)
    requires i < N && After(first, db, i, a) && db.run.mirror == db.checkpoints.Keys
    requires a.stages(i).mirror == NoFault
    ensures Ended(first, ExecuteMirrored(db, i, first.checkpoints.Keys, first.run.budget, a), a)
    decreases N - i, 0
  {
    FaultEnds(first, db, a);
    if i == FINAL || (a.stages(i).readSpend == NoFault && !Breached(db.run.spent, first.run.budget)) {
      ExecuteEnds(first, db, i + 1, a);
    } else if a.stages(i).readSpend == NoFault {
      PauseEnds(first, db, i, a);
    }
  }

  lemma PauseEnds(first: Db, db: Db, i: nat, a: Attempt)
    requires i < N && After(first, db, i, a) && db.run.mirror == db.checkpoints.Keys
    requires a.stages(i).mirror == a.stages(i).readSpend == NoFault && Breached(db.run.spent, first.run.budget)
    ensures Ended(first, AfterHandler(a.handler, MarkPaused(db), db, Paused), a)
  {
    assert i in db.checkpoints;
  }

  /**
   After any attempt: saved states stay; each new checkpoint holds exactly the detail its stage
   returned in this attempt; the spend grew by the costs of the stages called, the last of which the
   row names; a pause means spending over a tenth of the budget and at least one new checkpoint; and
   a pause, or a completion that was not complete before, leaves the mirror equal to the checkpoints.
   */
  lemma AttemptRecords(db: Db, a: Attempt)
    ensures var (db', outcome) := RunAttempt(db, a);
      && Kept(db, db', a) && Spent(db, db', a)
      && (outcome == Paused ==> db'.checkpoints != db.checkpoints && 10 * db'.run.spent > db.run.budget)
      && (outcome == Paused || (outcome == Completed && exists k: nat :: k < N && k !in db.checkpoints) ==>
            db'.run.mirror == db'.checkpoints.Keys)
      && (outcome in {Paused, Completed} ==> Checked(db, db', a))
  {
    assert db.log[|db.log|..] == [];
    if a.readRun == NoFault {
      ExecuteEnds(db, db, 0, a);
    }
  }

  /** In every sequential history each checkpoint holds what its stage returned in the attempt that saved it. */
  lemma {:induction false} HistoryRecords(budget: int, steps: seq<ExecutorProofs.Step>, k: nat) returns (j: nat)
    requires k in ExecutorProofs.PlayAll(budget, steps).db.checkpoints
    ensures j < |steps| && steps[j].Resume?
    ensures k !in ExecutorProofs.PlayAll(budget, steps[..j]).db.checkpoints
    ensures Delivered(steps[j].a, k, ExecutorProofs.PlayAll(budget, steps).db.checkpoints[k])
  {
    var n := |steps| - 1;
    var before := ExecutorProofs.PlayAll(budget, steps[..n]).db;
    if steps[n].Resume? {
      AttemptRecords(before, steps[n].a);
    }
    if k in before.checkpoints {
      j := HistoryRecords(budget, steps[..n], k);
      assert steps[..n][..j] == steps[..j];
    } else {
      j := n;
    }
  }

  // ------------------------------------------------------------- concurrent executors

  /** Move `p` of the schedule is the task of stage `k`, called by its executor, returning `detail`. */
  predicate ReturnsAt(budget: int, schedule: seq<Interleaving.Move>, p: nat, k: nat, detail: string)
    requires p < |schedule|
  {
    var world, move := Interleaving.PlayAll(budget, schedule[..p]), schedule[p];
    && move.Act? && move.who < |world.workers| && world.workers[move.who].pc == Interleaving.Calling(k)
    && move.choice.Task? && move.choice.input.ending == Ok(detail)
  }

  ghost predicate Returned(budget: int, schedule: seq<Interleaving.Move>, k: nat, detail: string) {
    exists p: nat | p < |schedule| :: ReturnsAt(budget, schedule, p, k, detail)
  }

  lemma ReturnedSnoc(budget: int, schedule: seq<Interleaving.Move>, k: nat, detail: string)
    requires schedule != [] && Returned(budget, schedule[..|schedule| - 1], k, detail)
    ensures Returned(budget, schedule, k, detail)
  {
    var front := schedule[..|schedule| - 1];
    var p: nat :| p < |front| && ReturnsAt(budget, front, p, k, detail);
    assert front[..p] == schedule[..p] && front[p] == schedule[p];
    assert ReturnsAt(budget, schedule, p, k, detail);
  }

  /** What the checkpoints hold and the executors are about to save was returned by some task. */
  ghost predicate AllReturned(budget: int, schedule: seq<Interleaving.Move>, world: Interleaving.World) {
    && (forall k | k in world.db.checkpoints :: Returned(budget, schedule, k, world.db.checkpoints[k]))
    && (forall w | 0 <= w < |world.workers| && world.workers[w].pc.Saving? ::
          Returned(budget, schedule, world.workers[w].pc.i, world.workers[w].pc.detail))
  }

  /** Under every schedule each checkpoint holds a detail that some executor's task returned for that stage. */
  lemma {:induction false} ScheduleRecords(budget: int, schedule: seq<Interleaving.Move>)
    ensures AllReturned(budget, schedule, Interleaving.PlayAll(budget, schedule))
  {
    if schedule != [] {
      var n := |schedule| - 1;
      var world, move := Interleaving.PlayAll(budget, schedule[..n]), schedule[n];
      ScheduleRecords(budget, schedule[..n]);
      StillReturned(budget, schedule, world);
      if move.Act? && move.who < |world.workers| {
        MoveReturns(budget, schedule, world, move.who, move.choice);
      }
    }
  }

  lemma StillReturned(budget: int, schedule: seq<Interleaving.Move>, world: Interleaving.World)
    requires schedule != [] && AllReturned(budget, schedule[..|schedule| - 1], world)
    ensures AllReturned(budget, schedule, world)
  {
    forall k | k in world.db.checkpoints ensures Returned(budget, schedule, k, world.db.checkpoints[k]) {
      ReturnedSnoc(budget, schedule, k, world.db.checkpoints[k]);
    }
    forall w | 0 <= w < |world.workers| && world.workers[w].pc.Saving?
      ensures Returned(budget, schedule, world.workers[w].pc.i, world.workers[w].pc.detail)
    {
      ReturnedSnoc(budget, schedule, world.workers[w].pc.i, world.workers[w].pc.detail);
    }
  }

  lemma MoveReturns(budget: int, schedule: seq<Interleaving.Move>, world: Interleaving.World, who: nat,
                    choice: Interleaving.Choice)
    requires schedule != [] && schedule[|schedule| - 1] == Interleaving.Act(who, choice) && who < |world.workers|
    requires world == Interleaving.PlayAll(budget, schedule[..|schedule| - 1]) && AllReturned(budget, schedule, world)
    ensures AllReturned(budget, schedule, Interleaving.Perform(world, Interleaving.Act(who, choice)))
  {
    var w := world.workers[who];
    if choice.Task? && w.pc.Calling? && choice.input.ending.Ok? {
      assert ReturnsAt(budget, schedule, |schedule| - 1, w.pc.i, choice.input.ending.detail);
    }
  }
}
