/**
 The cost meter (`app/services/cost_meter.py`). Amounts are in units of 0.0001 USD, the precision of the
 stored column.
 */
module CostMeter {
  import opened Prelude

  /** 0.000002 USD. */
  const UNITS_PER_TOKEN: real := 0.02

  /** `quantize` with ROUND_HALF_UP: to the nearest unit, a tie away from zero. */
  function RoundHalfUp(x: real): int {
    if x >= 0.0 then (x + 0.5).Floor else -((-x + 0.5).Floor)
  }

  /**
   Token counts as the source gets them: from the caller, from the response's usage record, and from
   counting the texts.
   */
  datatype Tokens = Tokens(prompt: Option<int>, completion: Option<int>)

  datatype Call = Call(explicit: Option<real>, provider: Option<real>, given: Tokens, usage: Tokens,
                       counted: (nat, nat))

  /** `estimate_cost`. */
  function Estimate(tokens: Tokens, counted: (nat, nat)): real {
    var p := if tokens.prompt.Some? then tokens.prompt.value else counted.0;
    var c := if tokens.completion.Some? then tokens.completion.value else counted.1;
    (Max(0, p) + Max(0, c)) as real * UNITS_PER_TOKEN
  }

  /** What a call is taken to cost: the caller's figure, else the provider's, else the estimate. */
  function CostOf(call: Call): real {
    if call.explicit.Some? then call.explicit.value
    else if call.provider.Some? then call.provider.value
    else Estimate(if call.given == Tokens(None, None) then call.usage else call.given, call.counted)
  }

  datatype Metered = Metered(units: int) | NegativeCost | RunNotFound | StoreFailed

  type Spends = map<nat, int>

  /** `record_call`: `spends` has an entry per run row. */
  function Record(spends: Spends, call: Call, run: Option<nat>, commit: bool): (Spends, Metered) {
    var units := RoundHalfUp(CostOf(call));
    if units < 0 then (spends, NegativeCost)
    else if run.None? then (spends, Metered(units))
    else if run.value !in spends then (spends, RunNotFound)
    else if !commit then (spends, StoreFailed)
    else (spends[run.value := spends[run.value] + units], Metered(units))
  }

  class Meter {
    var spends: Spends

    constructor (spends: Spends)
      ensures this.spends == spends
    {
      this.spends := spends;
    }

    method RecordCall(call: Call, run: Option<nat>, commit: bool) returns (r: Metered)
      modifies this
      ensures (spends, r) == Record(old(spends), call, run, commit)
    {
      var cost: real;
      if call.explicit.Some? {
        cost := call.explicit.value;
      } else if call.provider.Some? {
        cost := call.provider.value;
      } else {
        var tokens := call.given;
        if tokens.prompt.None? && tokens.completion.None? {
          tokens := call.usage;
        }
        cost := Estimate(tokens, call.counted);
      }
      var units := RoundHalfUp(cost);
      if units < 0 {
        return NegativeCost;
      }
      if run.None? {
        return Metered(units);
      }
      if run.value !in spends {
        return RunNotFound;
      }
      if !commit {
        return StoreFailed;
      }
      spends := spends[run.value := spends[run.value] + units];
      return Metered(units);
    }
  }

  // ------------------------------------------------------------------------ rounding

  function Distance(n: int, x: real): real {
    if n as real >= x then n as real - x else x - n as real
  }

  /** Rounding moves a cost by at most half a unit, and treats both signs alike. */
  lemma RoundsByHalf(x: real)
    ensures Distance(RoundHalfUp(x), x) <= 0.5 && RoundHalfUp(-x) == -RoundHalfUp(x)
  {
    if x == 0.0 {
      assert (0.5).Floor == 0;
    }
  }

  /** The result is the nearest unit; of two equally near, the one further from zero. */
  lemma RoundsToNearest(x: real, n: int)
    requires n != RoundHalfUp(x)
    ensures Distance(RoundHalfUp(x), x) <= Distance(n, x)
    ensures Distance(RoundHalfUp(x), x) == Distance(n, x) ==> Distance(n, 0.0) < Distance(RoundHalfUp(x), 0.0)
  {
    RoundsByHalf(x);
    var r := RoundHalfUp(x);
    if n < r {
      assert n as real <= r as real - 1.0;
    } else {
      assert n as real >= r as real + 1.0;
    }
  }

  /**
   A cost is refused as negative exactly from half a unit below zero on; smaller negative costs are taken
   as nothing.
   */
  lemma RefusedIff(spends: Spends, call: Call, run: Option<nat>, commit: bool)
    ensures Record(spends, call, run, commit).1 == NegativeCost <==> CostOf(call) <= -0.5
    ensures -0.5 < CostOf(call) < 0.5 <==> RoundHalfUp(CostOf(call)) == 0
  {
    var x := CostOf(call);
    if x < 0.0 {
      assert (-x + 0.5).Floor >= 1 <==> -x >= 0.5;
    }
  }

  /** An estimate is never refused, and is free exactly below 25 tokens, however many such calls a run makes. */
  lemma EstimatesFreeBelow25(tokens: Tokens, counted: (nat, nat))
    ensures Estimate(tokens, counted) >= 0.0
    ensures var p := if tokens.prompt.Some? then tokens.prompt.value else counted.0;
      var c := if tokens.completion.Some? then tokens.completion.value else counted.1;
      RoundHalfUp(Estimate(tokens, counted)) == 0 <==> Max(0, p) + Max(0, c) < 25
  {
  }

  /** `n` is the nearest number of units; of two equally near, the one further from zero. */
  ghost predicate IsRounded(n: int, x: real) {
    forall m: int | m != n ::
      Distance(n, x) <= Distance(m, x) && (Distance(n, x) == Distance(m, x) ==> Distance(m, 0.0) < Distance(n, 0.0))
  }

  /**
   What a call costs in units: the caller's figure; without one the provider's; without either 0.02 for
   each token, with the caller's counts if there are any, else those of the usage record, and what is
   missing counted from the texts.
   */
  predicate Costs(call: Call, cost: real) {
    if call.explicit.Some? then cost == call.explicit.value
    else if call.provider.Some? then cost == call.provider.value
    else
      var counts := if call.given.prompt.Some? || call.given.completion.Some? then call.given else call.usage;
      var p := if counts.prompt.Some? then counts.prompt.value else call.counted.0;
      var c := if counts.completion.Some? then counts.completion.value else call.counted.1;
      cost == 0.02 * ((if p > 0 then p else 0) + (if c > 0 then c else 0)) as real
  }

  /**
   A call is refused as negative exactly at half a unit below zero; otherwise it is stored exactly if it
   is for no run, or for a run that exists and whose commit succeeds, and then with its cost rounded
   to the unit, which is what the run's spend grows by.
   */
  lemma StoredSpend(spends: Spends, call: Call, run: Option<nat>, commit: bool, cost: real)
    requires Costs(call, cost)
    ensures var (after, r) := Record(spends, call, run, commit);
      && (r == NegativeCost <==> cost <= -0.5)
      && (r.Metered? <==> cost > -0.5 && (run.None? || (run.value in spends && commit)))
      && (r == RunNotFound <==> cost > -0.5 && run.Some? && run.value !in spends)
      && (r.Metered? ==> IsRounded(r.units, cost))
      && (!r.Metered? || run.None? ==> after == spends)
      && (r.Metered? && run.Some? ==> after == spends[run.value := spends[run.value] + r.units])
  {
    assert cost == CostOf(call);
    RefusedIff(spends, call, run, commit);
    forall m: int | m != RoundHalfUp(cost) {
      RoundsToNearest(cost, m);
    }
    assert IsRounded(RoundHalfUp(cost), cost);
  }

  // -------------------------------------------------------------------- accumulation

  /** One `record_call` on some run, or on none. */
  datatype Event = Event(call: Call, run: Option<nat>, commit: bool)

  function SpendAfter(spends: Spends, events: seq<Event>): Spends {
    if events == [] then spends
    else
      var e := events[|events| - 1];
      Record(SpendAfter(spends, events[..|events| - 1]), e.call, e.run, e.commit).0
  }

  /** The call was stored on the run. */
  predicate Accepted(spends: Spends, e: Event, run: nat) {
    e.run == Some(run) && Record(spends, e.call, e.run, e.commit).1.Metered?
  }

  function AcceptedCount(spends: Spends, events: seq<Event>, run: nat): nat {
    if events == [] then 0
    else
      var n := |events| - 1;
      AcceptedCount(spends, events[..n], run)
      + (if Accepted(SpendAfter(spends, events[..n]), events[n], run) then 1 else 0)
  }

  /** What the stored calls of the run cost before rounding. */
  function ExactSum(spends: Spends, events: seq<Event>, run: nat): real {
    if events == [] then 0.0
    else
      var n := |events| - 1;
      ExactSum(spends, events[..n], run)
      + (if Accepted(SpendAfter(spends, events[..n]), events[n], run) then CostOf(events[n].call) else 0.0)
  }

  /**
   After any calls on any runs, the spend of a run has never decreased and is within half a unit per stored
   call of the exact sum; the runs are the same runs.
   */
  lemma {:induction false} SpendTracksCost(spends: Spends, events: seq<Event>, run: nat)
    requires run in spends
    ensures var after, n := SpendAfter(spends, events), AcceptedCount(spends, events, run);
      && after.Keys == spends.Keys
      && after[run] >= spends[run]
      && -0.5 * n as real <= (after[run] - spends[run]) as real - ExactSum(spends, events, run) <= 0.5 * n as real
  {
    if events != [] {
      var n := |events| - 1;
      SpendTracksCost(spends, events[..n], run);
      RoundsByHalf(CostOf(events[n].call));
    }
  }

  /** More calls never lower a spend. */
  lemma {:induction false} SpendNeverFalls(spends: Spends, events: seq<Event>, k: nat, run: nat)
    requires run in spends && k <= |events|
    ensures run in SpendAfter(spends, events[..k]) && run in SpendAfter(spends, events)
    ensures SpendAfter(spends, events[..k])[run] <= SpendAfter(spends, events)[run]
  {
    SpendTracksCost(spends, events[..k], run);
    SpendTracksCost(spends, events, run);
    if k == |events| {
      assert events[..k] == events;
    } else {
      var n := |events| - 1;
      assert events[..n][..k] == events[..k];
      SpendNeverFalls(spends, events[..n], k, run);
    }
  }

  /** A call that is refused, or is for no run, changes no spend. */
  lemma OnlyStoredCallsSpend(spends: Spends, e: Event, run: nat)
    requires run in spends
    ensures var after := Record(spends, e.call, e.run, e.commit).0;
      && run in after
      && (after[run] != spends[run] <==> Accepted(spends, e, run) && CostOf(e.call) >= 0.5)
  {
    RefusedIff(spends, e.call, e.run, e.commit);
    RoundsByHalf(CostOf(e.call));
  }
}
