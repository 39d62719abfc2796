/**
 The structured-output loop of `LLMGateway.complete`, without its cache: pacing, validation, and what
 gets metered.
 */
module Gateway {
  import opened Prelude
  import CostMeter
  import RateLimiter

  /**
   One round: whether the before-call hooks pass, the paced provider call, whether content and usage
   can be read from its answer, and whether the content validates.
   */
  datatype Round = Round(hooksPass: bool, turn: RateLimiter.Turn, readable: bool, validates: bool)

  datatype Ending = Raised | Quarantined | Accepted(round: nat)

  /** What a call of `complete` asks for; `structured` says a response model is given. */
  datatype Request = Request(structured: bool, maxRetries: nat, run: Option<nat>, rounds: nat -> Round,
                             cost: nat -> CostMeter.Call, commit: bool)

  /** The loop from round `k` on. */
  function Rounds(st: RateLimiter.Limiter, k: nat, q: Request): (RateLimiter.Limiter, Ending)
    requires k <= q.maxRetries + 1
    decreases q.maxRetries + 1 - k, st
  {
    if k > q.maxRetries then (st, Quarantined)
    else
      var r := q.rounds(k);
      if !r.hooksPass then (st, Raised)
      else
        var (next, ok) := RateLimiter.Paced(st, r.turn.idle, r.turn.over, r.turn.tries);
        if !ok || !r.readable then (next, Raised)
        else if !q.structured || r.validates then (next, Accepted(k))
        else Rounds(next, k + 1, q)
  }

  datatype Result = Completed(round: nat, units: int) | Quarantine | Error

  /** The whole call: only the accepted response is metered. */
  function Complete(st: RateLimiter.Limiter, spends: CostMeter.Spends,
                    q: Request): (RateLimiter.Limiter, CostMeter.Spends, Result) {
    var (next, ending) := Rounds(st, 0, q);
    match ending
    case Raised => (next, spends, Error)
    case Quarantined => (next, spends, Quarantine)
    case Accepted(k) =>
      var (after, metered) := CostMeter.Record(spends, q.cost(k), q.run, q.commit);
      (next, after, if metered.Metered? then Completed(k, metered.units) else Error)
  }

  class LLMGateway {
    const pacer: RateLimiter.Pacer
    const meter: CostMeter.Meter

    constructor (pacer: RateLimiter.Pacer, meter: CostMeter.Meter)
      ensures this.pacer == pacer && this.meter == meter
    {
      this.pacer, this.meter := pacer, meter;
    }

    method CompleteCall(q: Request) returns (result: Result)
      modifies pacer, meter
      ensures (pacer.State(), meter.spends, result) == Complete(old(pacer.State()), old(meter.spends), q)
    {
      var accepted: Option<nat> := None;
      for attempt := 0 to q.maxRetries + 1
        invariant meter.spends == old(meter.spends)
        invariant Rounds(pacer.State(), attempt, q) == Rounds(old(pacer.State()), 0, q)
      {
        var r := q.rounds(attempt);
        if !r.hooksPass {
          return Error;
        }
        var ok := pacer.CallProvider(r.turn.idle, r.turn.over, r.turn.tries);
        if !ok || !r.readable {
          return Error;
        }
        if !q.structured || r.validates {
          var metered := meter.RecordCall(q.cost(attempt), q.run, q.commit);
          return if metered.Metered? then Completed(attempt, metered.units) else Error;
        }
      }
      return Quarantine;
    }
  }

  // ------------------------------------------------------------------------ results

  lemma {:induction false} AnswersGrow(st: RateLimiter.Limiter, k: nat, tries: nat -> RateLimiter.Try)
    requires k <= RateLimiter.MAX_RETRIES
    ensures var (next, ok) := RateLimiter.Attempts(st, k, tries);
      |RateLimiter.Successes(next.calls)| == |RateLimiter.Successes(st.calls)| + (if ok then 1 else 0)
    decreases RateLimiter.MAX_RETRIES - k
  {
    var (next, kind) := RateLimiter.AttemptOne(st, k, tries(k));
    RateLimiter.AttemptAnswers(st, k, tries(k));
    if kind == RateLimiter.Retried {
      AnswersGrow(next, k + 1, tries);
    }
  }

  /** Answers received by the loop: one per round it went through. */
  lemma {:induction false} RoundsAnswered(st: RateLimiter.Limiter, k: nat, q: Request)
    requires k <= q.maxRetries + 1
    ensures var (next, ending) := Rounds(st, k, q);
      var more := |RateLimiter.Successes(next.calls)| - |RateLimiter.Successes(st.calls)|;
      && (ending == Quarantined ==> more == q.maxRetries + 1 - k)
      && (ending.Accepted? ==> k <= ending.round <= q.maxRetries && more == ending.round + 1 - k)
      && (ending == Raised ==> 0 <= more <= q.maxRetries + 1 - k)
    decreases q.maxRetries + 1 - k
  {
    if k <= q.maxRetries && q.rounds(k).hooksPass {
      var turn := q.rounds(k).turn;
      AnswersGrow(RateLimiter.Waited(st, turn.idle, turn.over), 0, turn.tries);
      var (next, ok) := RateLimiter.Paced(st, turn.idle, turn.over, turn.tries);
      if ok && q.rounds(k).readable && q.structured && !q.rounds(k).validates {
        RoundsAnswered(next, k + 1, q);
      }
    }
  }

  /** The books after one metered answer. */
  predicate PaidOnce(spends: CostMeter.Spends, after: CostMeter.Spends, run: Option<nat>, units: int) {
    && units >= 0
    && (run.None? ==> after == spends)
    && (run.Some? ==> run.value in spends && after == spends[run.value := spends[run.value] + units])
  }

  lemma MeteringPays(spends: CostMeter.Spends, call: CostMeter.Call, run: Option<nat>, commit: bool)
    ensures var (after, metered) := CostMeter.Record(spends, call, run, commit);
      if metered.Metered? then PaidOnce(spends, after, run, metered.units) else after == spends
  {
  }

  /**
   However many answers the provider gave, at most one is metered: a completion in round `k` has used
   `k + 1` answers and pays for one, and a quarantine has used `max_retries + 1` and pays for none.
   */
  lemma OnlyTheAcceptedAnswerIsMetered(st: RateLimiter.Limiter, spends: CostMeter.Spends, q: Request)
    ensures var (next, after, result) := Complete(st, spends, q);
      var answers := |RateLimiter.Successes(next.calls)| - |RateLimiter.Successes(st.calls)|;
      && (result == Quarantine ==> answers == q.maxRetries + 1 && after == spends)
      && (result.Completed? ==> answers == result.round + 1 && PaidOnce(spends, after, q.run, result.units))
      && (result == Error ==> answers <= q.maxRetries + 1 && after == spends)
  {
    RoundsAnswered(st, 0, q);
    var ending := Rounds(st, 0, q).1;
    if ending.Accepted? {
      MeteringPays(spends, q.cost(ending.round), q.run, q.commit);
    }
  }

  /** The round gets a readable answer: its hooks pass and one of its tries is answered. */
  ghost predicate Readable(q: Request, k: nat) {
    q.rounds(k).hooksPass && RateLimiter.Answers(q.rounds(k).turn.tries) && q.rounds(k).readable
  }

  /** The round gets an answer that is accepted. */
  ghost predicate Acceptable(q: Request, k: nat) {
    Readable(q, k) && (!q.structured || q.rounds(k).validates)
  }

  /** Every round from `k` on and before `n` got an answer that did not validate. */
  ghost predicate AllRejected(q: Request, k: nat, n: nat) {
    forall j: nat | k <= j < n :: Readable(q, j) && !Acceptable(q, j)
  }

  /**
   How the loop ends, told by the rounds: accepted in the first round whose answer is acceptable, if all
   before it were rejected; raised in the first without a readable answer; quarantined if all are rejected.
   */
  lemma {:induction false} EndingIs(st: RateLimiter.Limiter, k: nat, q: Request)
    requires k <= q.maxRetries + 1
    ensures var ending := Rounds(st, k, q).1;
      && (forall n: nat :: ending == Accepted(n) <==>
            k <= n <= q.maxRetries && Acceptable(q, n) && AllRejected(q, k, n))
      && (ending == Raised <==> exists n: nat :: k <= n <= q.maxRetries && !Readable(q, n) && AllRejected(q, k, n))
      && (ending == Quarantined <==> AllRejected(q, k, q.maxRetries + 1))
    decreases q.maxRetries + 1 - k
  {
    if k <= q.maxRetries {
      var turn := q.rounds(k).turn;
      RateLimiter.PacedAnswers(st, turn.idle, turn.over, turn.tries);
      if Readable(q, k) && !Acceptable(q, k) {
        EndingIs(RateLimiter.Paced(st, turn.idle, turn.over, turn.tries).0, k + 1, q);
        forall n: nat | n > k ensures AllRejected(q, k, n) <==> AllRejected(q, k + 1, n) {
        }
      } else {
        assert AllRejected(q, k, k);
      }
    }
  }

  /**
   The whole call: it completes in round `n` exactly if that is the first acceptable one, all before
   it having been rejected, and its cost can be stored; then it returns that cost, rounded to the
   unit, which is also what the run pays.  Otherwise no spend changes.  It is quarantined exactly if
   every round was rejected.
   */
  lemma CompletedIff(st: RateLimiter.Limiter, spends: CostMeter.Spends, q: Request, n: nat, cost: real)
    requires n <= q.maxRetries && CostMeter.Costs(q.cost(n), cost)
    ensures var (_, after, result) := Complete(st, spends, q);
      && (result.Completed? && result.round == n <==>
            && Acceptable(q, n) && AllRejected(q, 0, n)
            && cost > -0.5 && (q.run.None? || (q.run.value in spends && q.commit)))
      && (result.Completed? && result.round == n ==>
            && CostMeter.IsRounded(result.units, cost)
            && (q.run.None? ==> after == spends)
            && (q.run.Some? ==> after == spends[q.run.value := spends[q.run.value] + result.units]))
      && (!result.Completed? ==> after == spends)
      && (result == Quarantine <==> AllRejected(q, 0, q.maxRetries + 1))
  {
    EndingIs(st, 0, q);
    CostMeter.StoredSpend(spends, q.cost(n), q.run, q.commit, cost);
    var ending := Rounds(st, 0, q).1;
    if ending.Accepted? {
      MeteringPays(spends, q.cost(ending.round), q.run, q.commit);
    }
  }

  /** Some answer validates in time exactly when the call is not quarantined, as long as no round raises. */
  lemma {:induction false} QuarantinedIff(st: RateLimiter.Limiter, k: nat, q: Request)
    requires k <= q.maxRetries + 1 && Rounds(st, k, q).1 != Raised
    ensures Rounds(st, k, q).1 == Quarantined <==>
              forall j: nat | k <= j <= q.maxRetries :: q.structured && !q.rounds(j).validates
    decreases q.maxRetries + 1 - k
  {
    if k <= q.maxRetries && q.structured && !q.rounds(k).validates {
      var turn := q.rounds(k).turn;
      QuarantinedIff(RateLimiter.Paced(st, turn.idle, turn.over, turn.tries).0, k + 1, q);
    }
  }

  /** One round of a loop that starts where a history of the limiter ends. */
  lemma RoundsStep(start: int, turns: seq<RateLimiter.Turn>, k: nat, q: Request) returns (goesOn: bool)
    requires k <= q.maxRetries && q.rounds(k).hooksPass
    ensures var next := RateLimiter.History(start, turns + [q.rounds(k).turn]);
      Rounds(RateLimiter.History(start, turns), k, q).0 == if goesOn then Rounds(next, k + 1, q).0 else next
  {
    var r, st := q.rounds(k), RateLimiter.History(start, turns);
    RateLimiter.HistorySnoc(start, turns, r.turn);
    var ok := RateLimiter.Paced(st, r.turn.idle, r.turn.over, r.turn.tries).1;
    goesOn := ok && r.readable && q.structured && !r.validates;
  }

  /** The loop makes paced calls and nothing else, so what holds of every history of the limiter holds around it. */
  lemma {:induction false} RoundsArePaced(st: RateLimiter.Limiter, start: int, turns: seq<RateLimiter.Turn>, k: nat,
                                          q: Request)
    returns (after: seq<RateLimiter.Turn>)
    requires k <= q.maxRetries + 1 && st == RateLimiter.History(start, turns)
    ensures turns <= after && Rounds(st, k, q).0 == RateLimiter.History(start, after)
    decreases q.maxRetries + 1 - k
  {
    after := turns;
    if k <= q.maxRetries && q.rounds(k).hooksPass {
      var goesOn := RoundsStep(start, turns, k, q);
      after := turns + [q.rounds(k).turn];
      if goesOn {
        after := RoundsArePaced(RateLimiter.History(start, after), start, after, k + 1, q);
      }
    }
  }
}
