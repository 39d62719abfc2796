/**
 Any number of executors on one run, each with its own snapshot, interleaved at every
 database access, each able to fail or die anywhere.  The transactions are those of `Executor`.
 */
module Interleaving {
  import opened Prelude
  import opened Executor

  /** What an executor does next. */
  datatype Pc =
    | Loading
    | ReadingRun
    | At(i: nat)
    | Calling(i: nat)
    | Saving(i: nat, detail: string)
    | ReadingDone(i: nat)
    | Mirroring(i: nat, done: set<nat>)
    | Checking(i: nat)
    | Pausing
    | Failing
    | Gone(outcome: Outcome)

  datatype Worker = Worker(pc: Pc, snapshot: set<nat>, budget: int)

  /** How the next access turns out, or what the stage task does. */
  datatype Choice = Go | Break(fault: Fault) | Task(input: StageInput)

  datatype World = World(db: Db, workers: seq<Worker>)

  datatype Move = Spawn | Act(who: nat, choice: Choice)

  predicate InTry(pc: Pc) {
    pc.At? || pc.Calling? || pc.Saving? || pc.ReadingDone? || pc.Mirroring? || pc.Checking?
  }

  /** One access of one executor. */
  function Advance(db: Db, w: Worker, choice: Choice): (Db, Worker) {
    match choice
    case Break(fault) =>
      if w.pc.Gone? || fault == NoFault then (db, w)
      else if fault == Death then (db, w.(pc := Gone(Died)))
      else if InTry(w.pc) then (db, w.(pc := Failing))
      else (db, w.(pc := Gone(Raised)))
    case Task(input) =>
      if !w.pc.Calling? then (db, w)
      else
        var ran := RunTask(db, w.pc.i, input);
        (match input.ending
         case Dies => (ran, w.(pc := Gone(Died)))
         case Ok(detail) => (ran, w.(pc := Saving(w.pc.i, detail)))
         case _ => (ran, w.(pc := Failing)))
    case Go =>
      match w.pc
      case Loading => (db, w.(pc := ReadingRun, snapshot := db.checkpoints.Keys))
      case ReadingRun => (db, w.(pc := At(0), budget := db.run.budget))
      case At(i) =>
        if i >= N then (db, w.(pc := Gone(Completed)))
        else if i in w.snapshot then (db, w.(pc := At(i + 1)))
        else (StartStage(db, i), w.(pc := Calling(i)))
      case Calling(i) => (db, w)
      case Saving(i, detail) => (SaveCheckpoint(db, i, detail), w.(pc := ReadingDone(i)))
      case ReadingDone(i) => (db, w.(pc := Mirroring(i, db.checkpoints.Keys)))
      case Mirroring(i, done) => (WriteMirror(db, done), w.(pc := if i == FINAL then At(i + 1) else Checking(i)))
      case Checking(i) => (db, w.(pc := if Breached(db.run.spent, w.budget) then Pausing else At(i + 1)))
      case Pausing => (MarkPaused(db), w.(pc := Gone(Paused)))
      case Failing => (MarkFailed(db), w.(pc := Gone(Raised)))
      case Gone(_) => (db, w)
  }

  function Perform(world: World, move: Move): World {
    match move
    case Spawn => world.(workers := world.workers + [Worker(Loading, {}, 0)])
    case Act(who, choice) =>
      if who >= |world.workers| then world
      else
        var (db, w) := Advance(world.db, world.workers[who], choice);
        World(db, world.workers[who := w])
  }

  /** The world after a schedule that starts with a new run and no executor. */
  function PlayAll(budget: int, schedule: seq<Move>): World {
    if schedule == [] then World(NewRun(budget), [])
    else Perform(PlayAll(budget, schedule[..|schedule| - 1]), schedule[|schedule| - 1])
  }

  // ------------------------------------------------------------------- invariant

  /** Every stage below `i` is checkpointed. */
  ghost predicate Below(checkpoints: map<nat, string>, i: nat) {
    forall k: nat | k < i :: k in checkpoints
  }

  /** What an executor at this point has seen of the checkpoints is still there. */
  ghost predicate WorkerOk(w: Worker, checkpoints: map<nat, string>) {
    && w.snapshot <= checkpoints.Keys
    && match w.pc
       case At(i) => Below(checkpoints, i)
       case Calling(i) => i < N && Below(checkpoints, i)
       case Saving(i, _) => i < N && Below(checkpoints, i)
       case ReadingDone(i) => Below(checkpoints, i + 1)
       case Mirroring(i, done) => Below(checkpoints, i + 1) && done <= checkpoints.Keys
       case Checking(i) => Below(checkpoints, i + 1)
       case _ => true
  }

  ghost predicate Inv(world: World, n: nat) {
    && Prefix(world.db.checkpoints, n)
    && world.db.run.mirror <= world.db.checkpoints.Keys
    && forall k | 0 <= k < |world.workers| :: WorkerOk(world.workers[k], world.db.checkpoints)
  }

  /** One access keeps the prefix, loses no checkpoint, and leaves the executor in order. */
  lemma AdvanceKeeps(db: Db, n: nat, w: Worker, choice: Choice) returns (m: nat)
    requires Prefix(db.checkpoints, n) && db.run.mirror <= db.checkpoints.Keys && WorkerOk(w, db.checkpoints)
    ensures var (db', w') := Advance(db, w, choice);
      && Prefix(db'.checkpoints, m) && db'.run.mirror <= db'.checkpoints.Keys
      && db.checkpoints.Keys <= db'.checkpoints.Keys && WorkerOk(w', db'.checkpoints)
  {
    m := n;
    if choice.Go? && w.pc.Saving? {
      var i := w.pc.i;
      assert n < i ==> n in db.checkpoints;
      m := Max(n, i + 1);
    }
  }

  /** Under every schedule the checkpoints are a prefix of the stages and the mirror shows a part of them. */
  lemma {:induction false} ScheduleKeeps(budget: int, schedule: seq<Move>) returns (n: nat)
    ensures Inv(PlayAll(budget, schedule), n)
  {
    n := 0;
    if schedule != [] {
      var last := |schedule| - 1;
      n := ScheduleKeeps(budget, schedule[..last]);
      var world := PlayAll(budget, schedule[..last]);
      if schedule[last].Act? && schedule[last].who < |world.workers| {
        var who, choice := schedule[last].who, schedule[last].choice;
        var m := AdvanceKeeps(world.db, n, world.workers[who], choice);
        var after := Perform(world, schedule[last]);
        forall k | 0 <= k < |after.workers| ensures WorkerOk(after.workers[k], after.db.checkpoints) {
          assert k != who ==> WorkerOk(world.workers[k], world.db.checkpoints);
        }
        n := m;
      }
    }
  }

  /**
   Whenever any executor calls a stage, every earlier stage has its checkpoint: collect finds search,
   trace finds conclude.
   */
  lemma CalledStageHasInputs(budget: int, schedule: seq<Move>, who: nat)
    requires who < |PlayAll(budget, schedule).workers| && PlayAll(budget, schedule).workers[who].pc.Calling?
    ensures var world := PlayAll(budget, schedule);
      && Below(world.db.checkpoints, world.workers[who].pc.i)
      && (world.workers[who].pc.i == 2 ==> STAGES[1] == "search" && 1 in world.db.checkpoints)
      && (world.workers[who].pc.i == FINAL ==> STAGES[8] == "conclude" && 8 in world.db.checkpoints)
  {
    var n := ScheduleKeeps(budget, schedule);
  }

  // ------------------------------------------------------- stages done a second time

  /** Nothing happens to a stage after it was saved: it is neither called nor saved again. */
  ghost predicate Once(log: seq<Event>) {
    forall p, q | 0 <= p < q < |log| && log[p].Saved? :: log[q].stage != log[p].stage
  }

  /** The executor starts or saves a stage whose checkpoint is there: it came after the executor took its snapshot. */
  predicate TooLate(db: Db, w: Worker, choice: Choice) {
    && choice.Go?
    && match w.pc
       case At(i) => i < N && i !in w.snapshot && i in db.checkpoints
       case Saving(i, _) => i in db.checkpoints
       case _ => false
  }

  predicate MovesTooLate(world: World, move: Move) {
    move.Act? && move.who < |world.workers| && TooLate(world.db, world.workers[move.who], move.choice)
  }

  /** No move of the schedule comes too late. */
  ghost predicate InTime(budget: int, schedule: seq<Move>) {
    forall p | 0 <= p < |schedule| :: !MovesTooLate(PlayAll(budget, schedule[..p]), schedule[p])
  }

  lemma InTimeSnoc(budget: int, schedule: seq<Move>)
    requires schedule != []
    ensures var n := |schedule| - 1;
      InTime(budget, schedule) <==>
        InTime(budget, schedule[..n]) && !MovesTooLate(PlayAll(budget, schedule[..n]), schedule[n])
  {
    var n := |schedule| - 1;
    forall p | 0 <= p < n ensures schedule[..n][..p] == schedule[..p] && schedule[..n][p] == schedule[p] {
    }
  }

  /** The checkpoints are what the log shows as saved. */
  ghost predicate Logged(db: Db) {
    forall i: nat :: i in db.checkpoints <==> Saved(i) in db.log
  }

  lemma OnceSnoc(db: Db, event: Event)
    requires Logged(db)
    ensures Once(db.log + [event]) <==> Once(db.log) && event.stage !in db.checkpoints
  {
    var all := db.log + [event];
    forall p | 0 <= p < |db.log| ensures all[p] == db.log[p] {
    }
    if event.stage in db.checkpoints {
      var p :| 0 <= p < |db.log| && db.log[p] == Saved(event.stage);
      assert all[p].Saved? && all[|db.log|].stage == all[p].stage;
    } else if p :| 0 <= p < |db.log| && db.log[p].Saved? && db.log[p].stage == event.stage {
      assert db.log[p] == Saved(event.stage);
    }
  }

  lemma LoggedSnoc(db: Db, event: Event, checkpoints: map<nat, string>)
    requires Logged(db)
    requires checkpoints.Keys == db.checkpoints.Keys + (if event.Saved? then {event.stage} else {})
    ensures Logged(db.(checkpoints := checkpoints, log := db.log + [event]))
  {
    forall i: nat ensures Saved(i) in db.log + [event] <==> Saved(i) in db.log || event == Saved(i) {
    }
  }

  lemma AdvanceOnce(db: Db, w: Worker, choice: Choice)
    requires Logged(db)
    ensures var after := Advance(db, w, choice).0;
      Logged(after) && (Once(after.log) <==> Once(db.log) && !TooLate(db, w, choice))
  {
    if choice.Go? && w.pc.At? && w.pc.i < N {
      OnceSnoc(db, Invoked(w.pc.i));
      LoggedSnoc(db, Invoked(w.pc.i), db.checkpoints);
    } else if choice.Go? && w.pc.Saving? {
      OnceSnoc(db, Saved(w.pc.i));
      LoggedSnoc(db, Saved(w.pc.i), db.checkpoints[w.pc.i := w.pc.detail]);
    }
  }

  /** A schedule leaves every saved stage alone exactly when no move of it comes too late. */
  lemma {:induction false} OnceIffInTime(budget: int, schedule: seq<Move>)
    ensures Logged(PlayAll(budget, schedule).db)
    ensures Once(PlayAll(budget, schedule).db.log) <==> InTime(budget, schedule)
  {
    if schedule != [] {
      var n := |schedule| - 1;
      var world, move := PlayAll(budget, schedule[..n]), schedule[n];
      OnceIffInTime(budget, schedule[..n]);
      InTimeSnoc(budget, schedule);
      if move.Act? && move.who < |world.workers| {
        AdvanceOnce(world.db, world.workers[move.who], move.choice);
      }
    }
  }

  function BothDo(schedule: seq<Move>, choice: Choice): seq<Move> {
    schedule + [Act(0, choice)] + [Act(1, choice)]
  }

  lemma PlaySnoc(budget: int, schedule: seq<Move>, move: Move)
    ensures PlayAll(budget, schedule + [move]) == Perform(PlayAll(budget, schedule), move)
  {
    assert (schedule + [move])[..|schedule|] == schedule;
  }

  lemma BothAct(budget: int, schedule: seq<Move>, choice: Choice, db: Db, w: Worker, db1: Db, db2: Db, w': Worker)
    requires PlayAll(budget, schedule) == World(db, [w, w])
    requires Advance(db, w, choice) == (db1, w') && Advance(db1, w, choice) == (db2, w')
    ensures PlayAll(budget, BothDo(schedule, choice)) == World(db2, [w', w'])
  {
    PlaySnoc(budget, schedule, Act(0, choice));
    PlaySnoc(budget, schedule + [Act(0, choice)], Act(1, choice));
  }

  /** Two executors load the same snapshot, call the first stage, and save it. */
  function SideBySide(input: StageInput): seq<Move> {
    BothDo(BothDo(BothDo(BothDo(BothDo([] + [Spawn] + [Spawn], Go), Go), Go), Task(input)), Go)
  }

  /** That schedule calls and saves one stage twice. */
  lemma SavedTwice(budget: int, input: StageInput)
    requires input.ending.Ok?
    ensures PlayAll(budget, SideBySide(input)).db.log == [Invoked(0), Invoked(0), Saved(0), Saved(0)]
  {
    var db, s := NewRun(budget), [] + [Spawn] + [Spawn];
    PlaySnoc(budget, [], Spawn);
    PlaySnoc(budget, [] + [Spawn], Spawn);
    var w := Worker(Loading, {}, 0);
    assert db.checkpoints.Keys == {};
    BothAct(budget, s, Go, db, w, db, db, w.(pc := ReadingRun));
    s, w := BothDo(s, Go), w.(pc := ReadingRun);
    BothAct(budget, s, Go, db, w, db, db, Worker(At(0), {}, budget));
    s, w := BothDo(s, Go), Worker(At(0), {}, budget);
    var a := StartStage(db, 0);
    var b := StartStage(a, 0);
    BothAct(budget, s, Go, db, w, a, b, w.(pc := Calling(0)));
    s, w := BothDo(s, Go), w.(pc := Calling(0));
    var c := RunTask(b, 0, input);
    var d := RunTask(c, 0, input);
    var saving := Saving(0, input.ending.detail);
    BothAct(budget, s, Task(input), b, w, c, d, w.(pc := saving));
    s, w := BothDo(s, Task(input)), w.(pc := saving);
    var e := SaveCheckpoint(d, 0, input.ending.detail);
    BothAct(budget, s, Go, d, w, e, SaveCheckpoint(e, 0, input.ending.detail), w.(pc := ReadingDone(0)));
  }

  // ------------------------------------------- a sequential attempt is one executor

  /** One executor left alone. */
  function Drive(db: Db, w: Worker, choices: seq<Choice>): (Db, Worker)
    decreases |choices|
  {
    if choices == [] then (db, w)
    else
      var (db', w') := Advance(db, w, choices[0]);
      Drive(db', w', choices[1..])
  }

  /** Driving by `choice` and then by `rest`. */
  lemma DriveCons(db: Db, w: Worker, choice: Choice, rest: seq<Choice>)
    ensures Drive(db, w, [choice] + rest) == Drive(Advance(db, w, choice).0, Advance(db, w, choice).1, rest)
  {
    assert ([choice] + rest)[1..] == rest;
  }

  /** Driving by two choices. */
  lemma DriveTwo(db: Db, w: Worker, first: Choice, second: Choice, rest: seq<Choice>)
    ensures var (db1, w1) := Advance(db, w, first);
      var (db2, w2) := Advance(db1, w1, second);
      Drive(db, w, [first, second] + rest) == Drive(db2, w2, rest)
  {
    var (db1, w1) := Advance(db, w, first);
    assert [first, second] + rest == [first] + ([second] + rest);
    DriveCons(db, w, first, [second] + rest);
    DriveCons(db1, w1, second, rest);
  }

  /** `choices` take `w` on `db` to the end `end` of an attempt. */
  ghost predicate Reaches(db: Db, w: Worker, choices: seq<Choice>, end: (Db, Outcome)) {
    Drive(db, w, choices) == (end.0, Worker(Gone(end.1), w.snapshot, w.budget))
  }

  lemma FaultReached(db: Db, w: Worker, fault: Fault, a: Attempt) returns (choices: seq<Choice>)
    requires fault != NoFault && InTry(w.pc)
    ensures Reaches(db, w, choices, Faulty(db, fault, a))
  {
    if fault == Death {
      choices := [Break(Death)] + [];
      DriveCons(db, w, Break(Death), []);
    } else {
      var rest := FailureReached(db, w.(pc := Failing), a);
      choices := [Break(Error)] + rest;
      DriveCons(db, w, Break(Error), rest);
    }
  }

  lemma FailureReached(db: Db, w: Worker, a: Attempt) returns (choices: seq<Choice>)
    requires w.pc == Failing
    ensures Reaches(db, w, choices, Fail(db, a))
  {
    var choice := if a.handler == NoFault then Go else Break(a.handler);
    choices := [choice] + [];
    DriveCons(db, w, choice, []);
  }

  lemma {:induction false} ExecuteReached(db: Db, w: Worker, i: nat, a: Attempt) returns (choices: seq<Choice>)
    requires i <= N && w.pc == At(i)
    ensures Reaches(db, w, choices, Execute(db, i, w.snapshot, w.budget, a))
    decreases N - i, 2, 1
  {
    var rest: seq<Choice> := [];
    if i == N {
    } else if i in w.snapshot {
      rest := ExecuteReached(db, w.(pc := At(i + 1)), i + 1, a);
    } else {
      var input := a.stages(i);
      if input.start != NoFault {
        choices := FaultReached(db, w, input.start, a);
        return;
      }
      rest := CalledReached(StartStage(db, i), w.(pc := Calling(i)), i, a);
    }
    choices := [Go] + rest;
    DriveCons(db, w, Go, rest);
  }

  /** The end of the attempt once stage `i` has been called. */
  function ExecuteCalled(db: Db, i: nat, snapshot: set<nat>, budget: int, a: Attempt): (Db, Outcome)
    requires i < N
  {
    var input := a.stages(i);
    var ran := RunTask(db, i, input);
    match input.ending
    case Dies => (ran, Died)
    case Ok(detail) =>
      if input.save != NoFault then Faulty(ran, input.save, a)
      else ExecuteSaved(SaveCheckpoint(ran, i, detail), i, snapshot, budget, a)
    case _ => Fail(ran, a)
  }

  lemma {:induction false} CalledReached(db: Db, w: Worker, i: nat, a: Attempt) returns (choices: seq<Choice>)
    requires i < N && w.pc == Calling(i)
    ensures Reaches(db, w, choices, ExecuteCalled(db, i, w.snapshot, w.budget, a))
    decreases N - i, 2, 0
  {
    var input := a.stages(i);
    var ran := RunTask(db, i, input);
    var rest: seq<Choice> := [];
    match input.ending {
      case Dies =>
      case Ok(detail) =>
        var saving := w.(pc := Saving(i, detail));
        if input.save != NoFault {
          rest := FaultReached(ran, saving, input.save, a);
        } else {
          var saved := SaveCheckpoint(ran, i, detail);
          var tail := SavedReached(saved, w.(pc := ReadingDone(i)), i, a);
          rest := [Go] + tail;
          DriveCons(ran, saving, Go, tail);
        }
      case _ =>
        rest := FailureReached(ran, w.(pc := Failing), a);
    }
    choices := [Task(input)] + rest;
    DriveCons(db, w, Task(input), rest);
  }

  lemma {:induction false} SavedReached(db: Db, w: Worker, i: nat, a: Attempt) returns (choices: seq<Choice>)
    requires i < N && w.pc == ReadingDone(i)
    ensures Reaches(db, w, choices, ExecuteSaved(db, i, w.snapshot, w.budget, a))
    decreases N - i, 1
  {
    if a.stages(i).mirror != NoFault {
      choices := FaultReached(db, w, a.stages(i).mirror, a);
    } else {
      var mirrored := WriteMirror(db, db.checkpoints.Keys);
      var next := w.(pc := if i == FINAL then At(i + 1) else Checking(i));
      var rest := MirroredReached(mirrored, next, i, a);
      choices := [Go, Go] + rest;
      DriveTwo(db, w, Go, Go, rest);
    }
  }

  lemma {:induction false} MirroredReached(db: Db, w: Worker, i: nat, a: Attempt) returns (choices: seq<Choice>)
    requires i < N && w.pc == (if i == FINAL then At(i + 1) else Checking(i))
    ensures Reaches(db, w, choices, ExecuteMirrored(db, i, w.snapshot, w.budget, a))
    decreases N - i, 0
  {
    if i == FINAL {
      choices := ExecuteReached(db, w, i + 1, a);
    } else if a.stages(i).readSpend != NoFault {
      choices := FaultReached(db, w, a.stages(i).readSpend, a);
    } else if Breached(db.run.spent, w.budget) {
      var choice := if a.handler == NoFault then Go else Break(a.handler);
      choices := [Go, choice] + [];
      DriveTwo(db, w, Go, choice, []);
    } else {
      var rest := ExecuteReached(db, w.(pc := At(i + 1)), i + 1, a);
      choices := [Go] + rest;
      DriveCons(db, w, Go, rest);
    }
  }

  /** Every sequential attempt is what one of these executors does when left alone. */
  lemma AttemptIsSchedule(db: Db, a: Attempt) returns (choices: seq<Choice>)
    ensures Drive(db, Worker(Loading, {}, 0), choices).0 == RunAttempt(db, a).0
    ensures Drive(db, Worker(Loading, {}, 0), choices).1.pc == Gone(RunAttempt(db, a).1)
  {
    var w := Worker(Loading, {}, 0);
    if a.readRun != NoFault {
      choices := [Break(a.readRun)] + [];
      DriveCons(db, w, Break(a.readRun), []);
    } else {
      var rest := ExecuteReached(db, Worker(At(0), db.checkpoints.Keys, db.run.budget), 0, a);
      choices := [Go, Go] + rest;
      DriveTwo(db, w, Go, Go, rest);
    }
  }
}
