/** What holds of one attempt, and of every sequential history of attempts on a run. */
module ExecutorProofs {
  import opened Prelude
  import opened Executor

  /** Each of the first `n` stages was saved, once, and nothing happened to it afterwards. */
  ghost predicate OnceEach(log: seq<Event>, n: nat) {
    && (forall p | 0 <= p < |log| && log[p].Saved? :: log[p].stage < n)
    && (forall i: nat | i < n :: Saved(i) in log)
    && (forall p, q | 0 <= p < q < |log| && log[p].Saved? :: log[q].stage != log[p].stage)
  }

  ghost predicate Inv(db: Db, n: nat) {
    && Prefix(db.checkpoints, n)
    && OnceEach(db.log, n)
    && n <= db.run.progress <= Min(n + 1, N)
    && db.run.mirror <= db.checkpoints.Keys
  }

  /** The cost of the last stage invoked in `events`, 0 if there is none. */
  function LastCost(events: seq<Event>, a: Attempt): nat {
    if events == [] then 0
    else
      match events[|events| - 1]
      case Invoked(i) => a.stages(i).cost
      case Saved(_) => LastCost(events[..|events| - 1], a)
  }

  /** Nothing fails: every access succeeds and every stage reports success. */
  predicate Healthy(a: Attempt, i: nat) {
    var s := a.stages(i);
    a.readRun == a.handler == NoFault && s.start == s.save == s.mirror == s.readSpend == NoFault && s.ending.Ok?
  }

  ghost predicate AlwaysHealthy(a: Attempt) {
    forall i: nat :: Healthy(a, i)
  }

  /** From `before` to `after` nothing recorded is lost or goes back. */
  ghost predicate Forward(before: Db, after: Db) {
    && before.log <= after.log
    && before.run.progress <= after.run.progress
    && before.run.spent <= after.run.spent
    && before.run.budget == after.run.budget
    && (forall k | k in before.checkpoints :: k in after.checkpoints && after.checkpoints[k] == before.checkpoints[k])
  }

  // --------------------------------------------------------------- small steps

  lemma StartKeeps(db: Db, n: nat, input: StageInput)
    requires Inv(db, n) && n < N
    ensures var ran := RunTask(StartStage(db, n), n, input);
      && Inv(ran, n) && Forward(db, ran) && ran.log == db.log + [Invoked(n)]
      && ran.run.spent == db.run.spent + input.cost && ran.failedAudits == db.failedAudits
      && (n == FINAL && input.ending.Ok? ==> ran.run.status == "completed")
  {
  }

  lemma SaveKeeps(db: Db, n: nat, detail: string)
    requires Inv(db, n) && n < N && db.run.progress == n + 1
    ensures Inv(SaveCheckpoint(db, n, detail), n + 1) && Forward(db, SaveCheckpoint(db, n, detail))
  {
    var r := SaveCheckpoint(db, n, detail);
    assert r.log[|db.log|] == Saved(n);
    forall i: nat | i < n + 1 ensures Saved(i) in r.log {
      if i < n {
        assert Saved(i) in db.log;
      }
    }
  }

  /** The breaker is a check of ten times the spend alone: the run budget is never what decides. */
  lemma BreachedIsTenth(spent: nat, budget: int)
    ensures Breached(spent, budget) <==> 10 * spent > budget
  {
  }

  // ---------------------------------------------------------------- one attempt

  /** What an attempt that started on `first` guarantees about where it ended. */
  ghost predicate Result(first: Db, n0: nat, after: Db, n: nat, outcome: Outcome, a: Attempt) {
    && Inv(after, n) && n0 <= n && Forward(first, after)
    && (outcome == Completed ==> n == N)
    && (outcome == Completed && n0 < N ==> after.run.status == "completed")
    && (outcome == Completed && n0 == N ==> after == first)
    && (outcome == Paused ==> n0 < n < N && after.run.status == "paused")
    && 10 * after.run.spent <= Max(10 * first.run.spent, first.run.budget) + 10 * LastCost(after.log[|first.log|..], a)
    && after.failedAudits
       == first.failedAudits + (if outcome == Raised && a.handler == a.readRun == NoFault then 1 else 0)
    && (outcome == Raised && a.handler == a.readRun == NoFault ==> after.run.status == "failed")
  }

  /** The spend bound while stages run: the last cost comes on top. */
  ghost predicate Bounded(first: Db, db: Db, a: Attempt) {
    && first.log <= db.log
    && 10 * db.run.spent <= Max(10 * first.run.spent, first.run.budget) + 10 * LastCost(db.log[|first.log|..], a)
  }

  /** Where the loop stands between two stages. */
  ghost predicate Between(first: Db, n0: nat, db: Db, n: nat, i: nat, a: Attempt) {
    && Inv(db, n) && n0 <= n && i <= N && Forward(first, db) && Bounded(first, db, a)
    && (if i < n0 then n == n0 else n == i)
    && (n == n0 ==> db == first)
    && (n0 < n == N ==> db.run.status == "completed")
    && db.failedAudits == first.failedAudits
    && (i < N ==> 10 * db.run.spent <= Max(10 * first.run.spent, first.run.budget))
  }

  lemma LastCostSnoc(before: seq<Event>, from: nat, event: Event, a: Attempt)
    requires from <= |before|
    ensures LastCost((before + [event])[from..], a)
         == if event.Invoked? then a.stages(event.stage).cost else LastCost(before[from..], a)
  {
    assert (before + [event])[from..] == before[from..] + [event];
    assert (before[from..] + [event])[..|before[from..]|] == before[from..];
  }

  lemma ForwardTransitive(a: Db, b: Db, c: Db)
    requires Forward(a, b) && Forward(b, c)
    ensures Forward(a, c)
  {
  }

  /** An attempt may end anywhere inside a stage. */
  ghost predicate Inside(first: Db, n0: nat, db: Db, n: nat, a: Attempt) {
    && Inv(db, n) && n0 <= n && Forward(first, db) && Bounded(first, db, a)
    && db.failedAudits == first.failedAudits && a.readRun == NoFault
  }

  /** However the except clause fares, an attempt that fails ends in a good state. */
  lemma FaultKeeps(first: Db, n0: nat, db: Db, n: nat, a: Attempt)
    requires Inside(first, n0, db, n, a)
    ensures Result(first, n0, Fail(db, a).0, n, Fail(db, a).1, a)
    ensures Result(first, n0, db, n, Died, a)
  {
  }

  lemma PauseKeeps(first: Db, n0: nat, db: Db, n: nat, a: Attempt)
    requires Inside(first, n0, db, n, a) && n0 < n < N
    ensures var (db', outcome) := AfterHandler(a.handler, MarkPaused(db), db, Paused);
      Result(first, n0, db', n, outcome, a) && (a.handler == NoFault ==> outcome == Paused)
  {
  }

  ghost predicate GoodEnd(first: Db, n0: nat, end: (Db, Outcome), m: nat, a: Attempt) {
    && Result(first, n0, end.0, m, end.1, a)
    && (AlwaysHealthy(a) ==> end.1 in {Completed, Paused})
  }

  /** The loop passes over a stage of the snapshot. */
  lemma PassedOver(first: Db, n0: nat, db: Db, n: nat, i: nat, a: Attempt)
    requires Between(first, n0, db, n, i, a) && i < n0
    ensures Between(first, n0, db, n, i + 1, a)
  {
  }

  /** The loop gets from one stage to the next, unless the breaker opens. */
  lemma GoesOn(first: Db, n0: nat, db: Db, i: nat, a: Attempt)
    requires Inside(first, n0, db, i + 1, a) && n0 <= i < N
    requires if i == FINAL then db.run.status == "completed" else !Breached(db.run.spent, first.run.budget)
    ensures Between(first, n0, db, i + 1, i + 1, a)
  {
  }

  /** The rest of an attempt, from any point between two stages. */
  lemma {:induction false} ExecuteKeeps(first: Db, n0: nat, db: Db, n: nat, i: nat, snapshot: set<nat>, a: Attempt)
    returns (m: nat)
    requires Between(first, n0, db, n, i, a) && a.readRun == NoFault
    requires forall k: nat :: k in snapshot <==> k < n0
    ensures GoodEnd(first, n0, Execute(db, i, snapshot, first.run.budget, a), m, a)
    decreases N - i, 3
  {
    m := n;
    if i == N {
    } else if i in snapshot {
      PassedOver(first, n0, db, n, i, a);
      m := ExecuteKeeps(first, n0, db, n, i + 1, snapshot, a);
    } else {
      m := StageKeeps(first, n0, db, i, snapshot, a);
    }
  }

  /** The same when stage `i` is not in the snapshot. */
  lemma {:induction false} StageKeeps(first: Db, n0: nat, db: Db, i: nat, snapshot: set<nat>, a: Attempt)
    returns (m: nat)
    requires n0 <= i < N && Between(first, n0, db, i, i, a) && a.readRun == NoFault
    requires forall k: nat :: k in snapshot <==> k < n0
    ensures GoodEnd(first, n0, Execute(db, i, snapshot, first.run.budget, a), m, a)
    decreases N - i, 2
  {
    m := i;
    var input := a.stages(i);
    assert AlwaysHealthy(a) ==> Healthy(a, i);
    if input.start != NoFault {
      FaultKeeps(first, n0, db, i, a);
    } else {
      var ran := RunTask(StartStage(db, i), i, input);
      StartedInside(first, n0, db, i, a);
      if !input.ending.Ok? || input.save != NoFault {
        FaultKeeps(first, n0, ran, i, a);
      } else {
        SavedInside(first, n0, ran, i, input.ending.detail, a);
        m := SavedKeeps(first, n0, SaveCheckpoint(ran, i, input.ending.detail), i, snapshot, a);
      }
    }
  }

  lemma StartedInside(first: Db, n0: nat, db: Db, n: nat, a: Attempt)
    requires Between(first, n0, db, n, n, a) && n < N && a.readRun == NoFault
    ensures Inside(first, n0, RunTask(StartStage(db, n), n, a.stages(n)), n, a)
    ensures RunTask(StartStage(db, n), n, a.stages(n)).run.progress == n + 1
  {
    var ran := RunTask(StartStage(db, n), n, a.stages(n));
    StartKeeps(db, n, a.stages(n));
    ForwardTransitive(first, db, ran);
    LastCostSnoc(db.log, |first.log|, Invoked(n), a);
  }

  lemma SavedInside(first: Db, n0: nat, ran: Db, n: nat, detail: string, a: Attempt)
    requires Inside(first, n0, ran, n, a) && n < N && ran.run.progress == n + 1
    ensures Inside(first, n0, SaveCheckpoint(ran, n, detail), n + 1, a)
  {
    SaveKeeps(ran, n, detail);
    ForwardTransitive(first, ran, SaveCheckpoint(ran, n, detail));
    LastCostSnoc(ran.log, |first.log|, Saved(n), a);
  }

  /** The same from the point where stage `i` has just been saved. */
  lemma {:induction false} SavedKeeps(first: Db, n0: nat, db: Db, i: nat, snapshot: set<nat>, a: Attempt)
    returns (m: nat)
    requires i < N && n0 <= i && Inside(first, n0, db, i + 1, a)
    requires i == FINAL ==> db.run.status == "completed"
    requires forall k: nat :: k in snapshot <==> k < n0
    ensures GoodEnd(first, n0, ExecuteSaved(db, i, snapshot, first.run.budget, a), m, a)
    decreases N - i, 1
  {
    assert AlwaysHealthy(a) ==> Healthy(a, i);
    var mirrored := WriteMirror(db, db.checkpoints.Keys);
    m := i + 1;
    if a.stages(i).mirror != NoFault {
      FaultKeeps(first, n0, db, i + 1, a);
    } else {
      assert Inside(first, n0, mirrored, i + 1, a);
      m := MirroredKeeps(first, n0, mirrored, i, snapshot, a);
    }
  }

  /** The same from the budget check after stage `i`. */
  lemma {:induction false} MirroredKeeps(first: Db, n0: nat, db: Db, i: nat, snapshot: set<nat>, a: Attempt)
    returns (m: nat)
    requires i < N && n0 <= i && Inside(first, n0, db, i + 1, a)
    requires i == FINAL ==> db.run.status == "completed"
    requires forall k: nat :: k in snapshot <==> k < n0
    ensures GoodEnd(first, n0, ExecuteMirrored(db, i, snapshot, first.run.budget, a), m, a)
    decreases N - i, 0
  {
    assert AlwaysHealthy(a) ==> Healthy(a, i);
    m := i + 1;
    if i == FINAL {
      GoesOn(first, n0, db, i, a);
      m := ExecuteKeeps(first, n0, db, i + 1, i + 1, snapshot, a);
    } else if a.stages(i).readSpend != NoFault {
      FaultKeeps(first, n0, db, i + 1, a);
    } else if Breached(db.run.spent, first.run.budget) {
      PauseKeeps(first, n0, db, i + 1, a);
    } else {
      GoesOn(first, n0, db, i, a);
      m := ExecuteKeeps(first, n0, db, i + 1, i + 1, snapshot, a);
    }
  }

  /** One attempt, started on a run with `n` checkpoints. */
  lemma AttemptKeeps(db: Db, n: nat, a: Attempt) returns (m: nat)
    requires Inv(db, n)
    ensures var (db', outcome) := RunAttempt(db, a);
      && Result(db, n, db', m, outcome, a)
      && (AlwaysHealthy(a) ==> outcome in {Completed, Paused})
  {
    assert AlwaysHealthy(a) ==> Healthy(a, 0);
    assert db.log[|db.log|..] == [];
    if a.readRun == NoFault {
      m := ExecuteKeeps(db, n, db, n, 0, db.checkpoints.Keys, a);
    } else {
      m := n;
    }
  }

  /** An attempt overspends by at most its last stage: whatever it started from, or a tenth of the budget it read. */
  lemma SpendBound(db: Db, n: nat, a: Attempt)
    requires Inv(db, n)
    ensures var db' := RunAttempt(db, a).0;
      && db.log <= db'.log
      && 10 * db'.run.spent <= Max(10 * db.run.spent, db.run.budget) + 10 * LastCost(db'.log[|db.log|..], a)
  {
    var m := AttemptKeeps(db, n, a);
  }

  /** A paused attempt saved at least one of the first nine stages; a completed one leaves all ten saved. */
  lemma PauseAddsCheckpoint(db: Db, n: nat, a: Attempt) returns (m: nat)
    requires Inv(db, n)
    ensures var (db', outcome) := RunAttempt(db, a);
      && Inv(db', m) && n <= m
      && (outcome == Paused ==> n < m < N && db'.run.status == "paused")
      && (outcome == Completed ==> m == N)
      && (forall k: nat | k < n :: db'.checkpoints[k] == db.checkpoints[k])
  {
    m := AttemptKeeps(db, n, a);
    assert forall k: nat | k < n :: k in db.checkpoints;
  }

  // ------------------------------------------------------------------ histories

  /** Attempts one after the other; between them somebody may change the budget. */
  datatype Step = Resume(a: Attempt) | SetBudget(budget: int)

  datatype History = History(db: Db, outcomes: seq<Outcome>)

  function PlayAll(budget: int, steps: seq<Step>): History {
    if steps == [] then History(NewRun(budget), [])
    else
      var h := PlayAll(budget, steps[..|steps| - 1]);
      match steps[|steps| - 1]
      case SetBudget(b) => h.(db := h.db.(run := h.db.run.(budget := b)))
      case Resume(a) =>
        var (db', outcome) := RunAttempt(h.db, a);
        History(db', h.outcomes + [outcome])
  }

  function CountPaused(outcomes: seq<Outcome>): nat {
    if outcomes == [] then 0
    else CountPaused(outcomes[..|outcomes| - 1]) + (if outcomes[|outcomes| - 1] == Paused then 1 else 0)
  }

  lemma CountPausedSnoc(outcomes: seq<Outcome>, outcome: Outcome)
    ensures CountPaused(outcomes + [outcome]) == CountPaused(outcomes) + (if outcome == Paused then 1 else 0)
  {
    assert (outcomes + [outcome])[..|outcomes|] == outcomes;
  }

  /**
   In every history: the checkpoints are a prefix of the stages, each was saved once and its stage
   was not called again, progress is the count or one more, and every pause cost one of the
   first nine checkpoints.
   */
  lemma {:induction false} HistoryKeeps(budget: int, steps: seq<Step>) returns (n: nat)
    ensures var h := PlayAll(budget, steps);
      && Inv(h.db, n) && CountPaused(h.outcomes) <= Min(n, FINAL)
  {
    n := 0;
    if steps != [] {
      var k := |steps| - 1;
      n := HistoryKeeps(budget, steps[..k]);
      var h := PlayAll(budget, steps[..k]);
      match steps[k]
      case SetBudget(b) =>
        assert Inv(h.db.(run := h.db.run.(budget := b)), n);
      case Resume(a) =>
        var m := AttemptKeeps(h.db, n, a);
        CountPausedSnoc(h.outcomes, RunAttempt(h.db, a).1);
        n := m;
    }
  }

  /** At most nine attempts in the life of a run pause, whatever fails and however the budget moves. */
  lemma AtMostNinePauses(budget: int, steps: seq<Step>)
    ensures CountPaused(PlayAll(budget, steps).outcomes) <= 9
  {
    var n := HistoryKeeps(budget, steps);
  }

  /** No step of a history loses a checkpoint, a log entry or progress. */
  lemma StepForward(budget: int, steps: seq<Step>, step: Step)
    ensures var before, after := PlayAll(budget, steps).db, PlayAll(budget, steps + [step]).db;
      && before.log <= after.log && before.run.progress <= after.run.progress && before.run.spent <= after.run.spent
      && before.checkpoints.Keys <= after.checkpoints.Keys
  {
    assert (steps + [step])[..|steps|] == steps;
    var n := HistoryKeeps(budget, steps);
    if step.Resume? {
      var m := AttemptKeeps(PlayAll(budget, steps).db, n, step.a);
    }
  }

  /** Resuming `tries` times in a row without any failure, starting from `db`. */
  function ResumeAll(db: Db, tries: seq<Attempt>): (Db, Outcome)
    requires tries != []
    decreases |tries|
  {
    var (db', outcome) := RunAttempt(db, tries[0]);
    if outcome == Completed || |tries| == 1 then (db', outcome) else ResumeAll(db', tries[1..])
  }

  /**
   Without failures a run with `n` checkpoints completes within `10 - n` resumes, even if the budget is
   never raised.
   */
  lemma {:induction false} HealthyRunsComplete(db: Db, n: nat, tries: seq<Attempt>)
    requires Inv(db, n) && |tries| >= Max(1, N - n) && forall k | 0 <= k < |tries| :: AlwaysHealthy(tries[k])
    ensures ResumeAll(db, tries).1 == Completed
    decreases |tries|
  {
    var m := AttemptKeeps(db, n, tries[0]);
    var (db', outcome) := RunAttempt(db, tries[0]);
    if outcome == Paused {
      HealthyRunsComplete(db', m, tries[1..]);
    }
  }

  /**
   When an attempt answers `completed` its run says so too, exactly unless it started with all ten
   checkpoints and another status: such an attempt changes nothing.
   */
  lemma CompletedMeansCompleted(db: Db, n: nat, a: Attempt)
    requires Inv(db, n) && RunAttempt(db, a).1 == Completed
    ensures RunAttempt(db, a).0.run.status == "completed" <==> n < N || db.run.status == "completed"
    ensures n == N ==> RunAttempt(db, a).0 == db
  {
    var m := AttemptKeeps(db, n, a);
  }

  /** An attempt that can read a run with all ten checkpoints answers `completed` and changes nothing. */
  lemma FinishedRunIsSkipped(db: Db, a: Attempt)
    requires Inv(db, N) && a.readRun == NoFault
    ensures RunAttempt(db, a) == (db, Completed)
  {
    SkipTo(db, N, a);
  }

  /** A fault right after the last checkpoint leaves a finished run marked failed, and no later attempt repairs it. */
  lemma FinishedRunStaysFailed(db: Db, a: Attempt, later: Attempt)
    requires Inv(db, FINAL) && a.readRun == a.handler == NoFault
    requires var s := a.stages(FINAL); s.start == s.save == NoFault && s.ending.Ok? && s.mirror == Error
    ensures var db' := RunAttempt(db, a).0;
      && Inv(db', N) && db'.run.status == "failed"
      && RunAttempt(db', later).0 == db'
  {
    SkipTo(db, FINAL, a);
    var s := a.stages(FINAL);
    var ran := RunTask(StartStage(db, FINAL), FINAL, s);
    StartKeeps(db, FINAL, s);
    SaveKeeps(ran, FINAL, s.ending.detail);
    var saved := SaveCheckpoint(ran, FINAL, s.ending.detail);
    assert RunAttempt(db, a) == Fail(saved, a);
    var db' := RunAttempt(db, a).0;
    if later.readRun == NoFault {
      SkipTo(db', N, later);
    }
  }

  /** The loop skips the stages of the snapshot. */
  lemma {:induction false} SkipTo(db: Db, n: nat, a: Attempt)
    requires Prefix(db.checkpoints, n) && a.readRun == NoFault
    ensures RunAttempt(db, a) == Execute(db, n, db.checkpoints.Keys, db.run.budget, a)
  {
    for i := 0 to n
      invariant RunAttempt(db, a) == Execute(db, i, db.checkpoints.Keys, db.run.budget, a)
    {
    }
  }
}
