/**
 Call pacing in `app/services/llm_gateway.py`: the shared list of success times and the retry
 loop around the provider.  Times are whole nanoseconds, the resolution of the clock; it never
 goes back, and callers come one after another.
 */
module RateLimiter {
  import opened Prelude

  const SECOND: int := 1_000_000_000
  const MIN_CALL_INTERVAL: int := 4 * SECOND
  const WINDOW: int := 60 * SECOND
  const MAX_RETRIES: nat := 3

  /** Time that passes; a sleep may last longer than asked. */
  type Span = nat

  datatype Reply = Answered | RateLimited(quota: bool) | Unavailable | ConnectionLost | OtherError

  /**
   One provider call: how long it takes, the time between the two clock readings after a success, the
   excess of the sleep after a failure.
   */
  datatype Try = Try(reply: Reply, took: Span, gap: Span, over: Span)

  /** How a provider call ended: answered, failed and tried again, or failed for good. */
  datatype Kind = Success | Retried | Raised
  datatype Call = Call(start: int, end: int, kind: Kind)

  /** The clock, the class-level list, and every provider call so far. */
  datatype Limiter = Limiter(clock: int, stamps: seq<int>, calls: seq<Call>)

  predicate Transient(reply: Reply) {
    reply == RateLimited(false) || reply == Unavailable || reply == ConnectionLost
  }

  function Delay(reply: Reply, attempt: nat): (d: int)
    requires attempt < MAX_RETRIES
    ensures d >= 10 * SECOND
  {
    var base := if reply.RateLimited? then 15 * SECOND else 10 * SECOND;
    if attempt == 0 then base else if attempt == 1 then 2 * base else 4 * base
  }

  /** The entries later than the cutoff. */
  function After(stamps: seq<int>, cutoff: int): seq<int> {
    if stamps == [] then []
    else
      var n := |stamps| - 1;
      After(stamps[..n], cutoff) + (if stamps[n] > cutoff then [stamps[n]] else [])
  }

  /** The list after a success at `end`, the second clock reading being `later`. */
  function Recorded(stamps: seq<int>, end: int, later: int): seq<int> {
    After(stamps + [end], later - WINDOW)
  }

  /** How long a call that starts at `now` must sleep first. */
  function Wait(stamps: seq<int>, now: int): int {
    if stamps == [] then 0
    else
      var elapsed := now - stamps[|stamps| - 1];
      if elapsed < MIN_CALL_INTERVAL then MIN_CALL_INTERVAL - elapsed else 0
  }

  /** Attempt number `k`. */
  function AttemptOne(st: Limiter, k: nat, t: Try): (Limiter, Kind)
    requires k <= MAX_RETRIES
  {
    var end := st.clock + t.took;
    if t.reply == Answered then
      var later := end + t.gap;
      (Limiter(later, Recorded(st.stamps, end, later), st.calls + [Call(st.clock, end, Success)]), Success)
    else if !Transient(t.reply) || k == MAX_RETRIES then
      (st.(clock := end, calls := st.calls + [Call(st.clock, end, Raised)]), Raised)
    else
      (st.(clock := end + Delay(t.reply, k) + t.over, calls := st.calls + [Call(st.clock, end, Retried)]), Retried)
  }

  /** The retry loop from attempt `k` on; the flag says whether the provider answered. */
  function Attempts(st: Limiter, k: nat, tries: nat -> Try): (Limiter, bool)
    requires k <= MAX_RETRIES
    decreases MAX_RETRIES - k, st
  {
    var (next, kind) := AttemptOne(st, k, tries(k));
    if kind == Retried then Attempts(next, k + 1, tries) else (next, kind == Success)
  }

  /** A call starts `idle` after the previous one returned, and sleeps if it must. */
  function Waited(st: Limiter, idle: Span, over: Span): Limiter {
    var now := st.clock + idle;
    var wait := Wait(st.stamps, now);
    st.(clock := if wait > 0 then now + wait + over else now)
  }

  /** `_call_with_rate_limit_retry`. */
  function Paced(st: Limiter, idle: Span, over: Span, tries: nat -> Try): (Limiter, bool) {
    Attempts(Waited(st, idle, over), 0, tries)
  }

  class Pacer {
    var clock: int
    var stamps: seq<int>
    ghost var calls: seq<Call>

    ghost function State(): Limiter
      reads this
    {
      Limiter(clock, stamps, calls)
    }

    constructor (now: int)
      ensures State() == Limiter(now, [], [])
    {
      clock, stamps, calls := now, [], [];
    }

    /** One turn of the loop: `Success` and `Raised` leave it. */
    method Attempt(k: nat, t: Try) returns (kind: Kind)
      requires k <= MAX_RETRIES
      modifies this
      ensures (State(), kind) == AttemptOne(old(State()), k, t)
    {
      ghost var start := clock;
      clock := clock + t.took;
      if t.reply == Answered {
        calls := calls + [Call(start, clock, Success)];
        stamps := stamps + [clock];
        clock := clock + t.gap;
        stamps := KeepAfter(stamps, clock - WINDOW);
        return Success;
      }
      if !Transient(t.reply) || k >= MAX_RETRIES {
        calls := calls + [Call(start, clock, Raised)];
        return Raised;
      }
      calls := calls + [Call(start, clock, Retried)];
      clock := clock + Delay(t.reply, k) + t.over;
      return Retried;
    }

    method CallProvider(idle: Span, over: Span, tries: nat -> Try) returns (ok: bool)
      modifies this
      ensures (State(), ok) == Paced(old(State()), idle, over, tries)
    {
      clock := clock + idle;
      if stamps != [] {
        var elapsed := clock - stamps[|stamps| - 1];
        if elapsed < MIN_CALL_INTERVAL {
          clock := clock + (MIN_CALL_INTERVAL - elapsed) + over;
        }
      }
      ghost var outcome := Attempts(State(), 0, tries);
      assert outcome == Paced(old(State()), idle, over, tries);
      for attempt := 0 to MAX_RETRIES + 1
        invariant attempt <= MAX_RETRIES && Attempts(State(), attempt, tries) == outcome
      {
        var kind := Attempt(attempt, tries(attempt));
        if kind != Retried {
          return kind == Success;
        }
      }
      assert false;
    }
  }

  method KeepAfter(stamps: seq<int>, cutoff: int) returns (kept: seq<int>)
    ensures kept == After(stamps, cutoff)
  {
    kept := [];
    for i := 0 to |stamps|
      invariant kept == After(stamps[..i], cutoff)
    {
      assert stamps[..i + 1][..i] == stamps[..i];
      if stamps[i] > cutoff {
        kept := kept + [stamps[i]];
      }
    }
    assert stamps[..|stamps|] == stamps;
  }

  // ------------------------------------------------------------------- what is kept

  /** When the provider answered. */
  function Successes(calls: seq<Call>): seq<int> {
    if calls == [] then []
    else
      var n := |calls| - 1;
      Successes(calls[..n]) + (if calls[n].kind == Success then [calls[n].end] else [])
  }

  /** Each time is at least four seconds after the one before. */
  ghost predicate Spread(times: seq<int>) {
    times != [] ==>
      var n := |times| - 1;
      Spread(times[..n]) && (n > 0 ==> times[n] >= times[n - 1] + MIN_CALL_INTERVAL)
  }

  lemma {:induction false} SpreadAt(times: seq<int>, i: nat, j: nat)
    requires Spread(times) && i <= j < |times|
    ensures times[j] - times[i] >= MIN_CALL_INTERVAL * (j - i)
  {
    var n := |times| - 1;
    if j < n {
      SpreadAt(times[..n], i, j);
    } else if i < n {
      SpreadAt(times[..n], i, n - 1);
    }
  }

  /** The least time between the end of a provider call and the start of the next. */
  function Rest(kind: Kind): int {
    match kind
    case Success => MIN_CALL_INTERVAL
    case Retried => 10 * SECOND
    case Raised => 0
  }

  ghost predicate CallsRest(calls: seq<Call>) {
    calls != [] ==>
      var n := |calls| - 1;
      && CallsRest(calls[..n])
      && calls[n].start <= calls[n].end
      && (n > 0 ==> calls[n].start >= calls[n - 1].end + Rest(calls[n - 1].kind))
  }

  lemma {:induction false} CallsRestAt(calls: seq<Call>, k: nat)
    requires CallsRest(calls) && 0 < k < |calls|
    ensures calls[k].start >= calls[k - 1].end + Rest(calls[k - 1].kind)
  {
    if k < |calls| - 1 {
      CallsRestAt(calls[..|calls| - 1], k);
    }
  }

  /** `a` is the end of `b`. */
  ghost predicate Tail(a: seq<int>, b: seq<int>) {
    |a| <= |b| && a == b[|b| - |a|..]
  }

  /** The list is the end of the successes `all`, no older than a minute; it is empty only if a minute has passed. */
  ghost predicate StampsOk(clock: int, stamps: seq<int>, all: seq<int>) {
    && Spread(all) && Tail(stamps, all)
    && (all != [] ==>
          var last := all[|all| - 1];
          && last <= clock
          && (if stamps == [] then clock >= last + WINDOW else stamps[0] > last - WINDOW))
  }

  ghost predicate CallsOk(clock: int, calls: seq<Call>) {
    CallsRest(calls) && (calls != [] ==> calls[|calls| - 1].end <= clock)
  }

  ghost predicate Ok(st: Limiter) {
    StampsOk(st.clock, st.stamps, Successes(st.calls)) && CallsOk(st.clock, st.calls)
  }

  /** Between calls: none ends on an attempt that was to be retried. */
  ghost predicate Between(st: Limiter) {
    Ok(st) && (st.calls != [] ==> st.calls[|st.calls| - 1].kind != Retried)
  }

  /** Enough time has passed for the provider to be called. */
  ghost predicate MayCall(clock: int, all: seq<int>, calls: seq<Call>) {
    && (all != [] ==> clock >= all[|all| - 1] + MIN_CALL_INTERVAL)
    && (calls != [] ==> clock >= calls[|calls| - 1].end + Rest(calls[|calls| - 1].kind))
  }

  /** Between the attempts of a call. */
  ghost predicate Ready(st: Limiter) {
    Ok(st) && MayCall(st.clock, Successes(st.calls), st.calls)
  }

  lemma SuccessesSnoc(calls: seq<Call>, call: Call)
    ensures Successes(calls + [call]) == Successes(calls) + (if call.kind == Success then [call.end] else [])
  {
    assert (calls + [call])[..|calls|] == calls;
  }

  lemma CallsSnoc(calls: seq<Call>, call: Call)
    requires CallsRest(calls) && call.start <= call.end
    requires calls != [] ==> call.start >= calls[|calls| - 1].end + Rest(calls[|calls| - 1].kind)
    ensures CallsRest(calls + [call])
  {
    assert (calls + [call])[..|calls|] == calls;
  }

  lemma {:induction false} SuccessIsCall(calls: seq<Call>)
    requires CallsRest(calls)
    ensures calls != [] && Successes(calls) != [] ==> Successes(calls)[|Successes(calls)| - 1] <= calls[|calls| - 1].end
    ensures calls == [] ==> Successes(calls) == []
  {
    if calls != [] {
      var n := |calls| - 1;
      SuccessIsCall(calls[..n]);
    }
  }

  lemma TailSnoc(a: seq<int>, b: seq<int>, x: int)
    requires Tail(a, b)
    ensures Tail(a + [x], b + [x])
  {
  }

  /** Of increasing times the filter keeps the tail that is later than the cutoff. */
  lemma {:induction false} AfterIsTail(stamps: seq<int>, cutoff: int)
    requires Spread(stamps)
    ensures Tail(After(stamps, cutoff), stamps)
    ensures After(stamps, cutoff) == [] <==> stamps == [] || stamps[|stamps| - 1] <= cutoff
    ensures After(stamps, cutoff) != [] ==> After(stamps, cutoff)[0] > cutoff
  {
    if stamps != [] {
      var n := |stamps| - 1;
      var front, last := stamps[..n], stamps[n];
      AfterIsTail(front, cutoff);
      assert stamps == front + [last];
      if last > cutoff {
        TailSnoc(After(front, cutoff), front, last);
      } else {
        assert After(stamps, cutoff) == After(front, cutoff) == [];
      }
    }
  }

  lemma SpreadSnoc(times: seq<int>, t: int)
    requires Spread(times) && (times != [] ==> t >= times[|times| - 1] + MIN_CALL_INTERVAL)
    ensures Spread(times + [t])
  {
    assert (times + [t])[..|times|] == times;
  }

  lemma {:induction false} SpreadTail(a: seq<int>, b: seq<int>)
    requires Spread(b) && Tail(a, b)
    ensures Spread(a)
  {
    if a != [] {
      var n, m := |a| - 1, |b| - 1;
      assert a[..n] == b[..m][m - n..];
      SpreadTail(a[..n], b[..m]);
      assert n > 0 ==> a[n] == b[m] && a[n - 1] == b[m - 1];
    }
  }

  lemma TailOfTail(a: seq<int>, b: seq<int>, c: seq<int>)
    requires Tail(a, b) && Tail(b, c)
    ensures Tail(a, c)
  {
  }

  lemma FilteredOk(longer: seq<int>, all: seq<int>, later: int)
    requires Spread(all) && Tail(longer, all) && longer != [] && longer[|longer| - 1] == all[|all| - 1] <= later
    ensures var kept := After(longer, later - WINDOW);
      && StampsOk(later, kept, all)
      && (kept == [] <==> later >= all[|all| - 1] + WINDOW)
  {
    SpreadTail(longer, all);
    AfterIsTail(longer, later - WINDOW);
    TailOfTail(After(longer, later - WINDOW), longer, all);
  }

  lemma StampsSnoc(clock: int, stamps: seq<int>, all: seq<int>, end: int, later: int)
    requires StampsOk(clock, stamps, all) && clock <= end <= later
    requires all != [] ==> clock >= all[|all| - 1] + MIN_CALL_INTERVAL
    ensures StampsOk(later, Recorded(stamps, end, later), all + [end])
    ensures Recorded(stamps, end, later) == [] <==> later >= end + WINDOW
  {
    SpreadSnoc(all, end);
    TailSnoc(stamps, all, end);
    FilteredOk(stamps + [end], all + [end], later);
  }

  /** However an attempt ends, the calls stay in order. */
  lemma AttemptCalls(st: Limiter, k: nat, t: Try)
    requires k <= MAX_RETRIES && CallsOk(st.clock, st.calls) && MayCall(st.clock, Successes(st.calls), st.calls)
    ensures var (next, kind) := AttemptOne(st, k, t);
      var call := Call(st.clock, st.clock + t.took, kind);
      && next.calls == st.calls + [call]
      && CallsRest(next.calls)
      && next.clock >= call.end + (if kind == Retried then Rest(kind) else 0)
  {
    var kind := AttemptOne(st, k, t).1;
    CallsSnoc(st.calls, Call(st.clock, st.clock + t.took, kind));
  }

  /** An attempt adds an answer exactly when it succeeds. */
  lemma AttemptAnswers(st: Limiter, k: nat, t: Try)
    requires k <= MAX_RETRIES
    ensures var (next, kind) := AttemptOne(st, k, t);
      |Successes(next.calls)| == |Successes(st.calls)| + (if kind == Success then 1 else 0)
  {
    SuccessesSnoc(st.calls, Call(st.clock, st.clock + t.took, AttemptOne(st, k, t).1));
  }

  lemma FailureStamps(st: Limiter, k: nat, t: Try)
    requires k <= MAX_RETRIES && t.reply != Answered && StampsOk(st.clock, st.stamps, Successes(st.calls))
    ensures var next := AttemptOne(st, k, t).0;
      && Successes(next.calls) == Successes(st.calls) && next.clock >= st.clock
      && StampsOk(next.clock, next.stamps, Successes(next.calls))
  {
    var (next, kind) := AttemptOne(st, k, t);
    SuccessesSnoc(st.calls, Call(st.clock, st.clock + t.took, kind));
    assert Successes(st.calls) + [] == Successes(st.calls);
  }

  lemma AnsweredStamps(clock: int, stamps: seq<int>, calls: seq<Call>, end: int, later: int)
    requires StampsOk(clock, stamps, Successes(calls)) && MayCall(clock, Successes(calls), calls)
          && clock <= end <= later
    ensures StampsOk(later, Recorded(stamps, end, later), Successes(calls + [Call(clock, end, Success)]))
  {
    SuccessesSnoc(calls, Call(clock, end, Success));
    StampsSnoc(clock, stamps, Successes(calls), end, later);
  }

  lemma AnsweredNext(st: Limiter, k: nat, t: Try)
    requires k <= MAX_RETRIES && t.reply == Answered
    ensures var end, later := st.clock + t.took, st.clock + t.took + t.gap;
      AttemptOne(st, k, t).0
      == Limiter(later, Recorded(st.stamps, end, later), st.calls + [Call(st.clock, end, Success)])
  {
  }

  ghost predicate StampsKept(st: Limiter) {
    StampsOk(st.clock, st.stamps, Successes(st.calls))
  }

  lemma AnsweredKept(st: Limiter, end: int, later: int, next: Limiter)
    requires StampsKept(st) && MayCall(st.clock, Successes(st.calls), st.calls) && st.clock <= end <= later
    requires next == Limiter(later, Recorded(st.stamps, end, later), st.calls + [Call(st.clock, end, Success)])
    ensures StampsKept(next)
  {
    AnsweredStamps(st.clock, st.stamps, st.calls, end, later);
  }

  lemma AttemptStamps(st: Limiter, k: nat, t: Try)
    requires k <= MAX_RETRIES && t.reply == Answered
    requires StampsKept(st) && MayCall(st.clock, Successes(st.calls), st.calls)
    ensures StampsKept(AttemptOne(st, k, t).0)
  {
    AnsweredNext(st, k, t);
    AnsweredKept(st, st.clock + t.took, st.clock + t.took + t.gap, AttemptOne(st, k, t).0);
  }

  lemma AttemptOneKeeps(st: Limiter, k: nat, t: Try)
    requires Ready(st) && k <= MAX_RETRIES
    ensures var (next, kind) := AttemptOne(st, k, t);
      if kind == Retried then Ready(next) else Between(next)
  {
    AttemptCalls(st, k, t);
    if t.reply == Answered {
      AttemptStamps(st, k, t);
    } else {
      FailureStamps(st, k, t);
    }
  }

  lemma {:induction false} AttemptsKeep(st: Limiter, k: nat, tries: nat -> Try)
    requires Ready(st) && k <= MAX_RETRIES
    ensures Between(Attempts(st, k, tries).0)
    decreases MAX_RETRIES - k
  {
    AttemptOneKeeps(st, k, tries(k));
    var (next, kind) := AttemptOne(st, k, tries(k));
    if kind == Retried {
      AttemptsKeep(next, k + 1, tries);
    }
  }

  /** Every paced call keeps the limiter in order, also one whose second clock reading empties the list. */
  lemma PacedKeeps(st: Limiter, idle: Span, over: Span, tries: nat -> Try)
    requires Between(st)
    ensures Between(Paced(st, idle, over, tries).0)
  {
    WaitSuffices(st, idle, over);
    AttemptsKeep(Waited(st, idle, over), 0, tries);
  }

  lemma WaitSuffices(st: Limiter, idle: Span, over: Span)
    requires Between(st)
    ensures Ready(Waited(st, idle, over))
  {
    SuccessIsCall(st.calls);
    WaitPaces(st.clock, st.stamps, Successes(st.calls), idle, over);
  }

  /**
   The sleep before a call keeps the list in order and leaves four seconds after the latest success,
   listed or not.
   */
  lemma WaitPaces(clock: int, stamps: seq<int>, all: seq<int>, idle: Span, over: Span)
    requires StampsOk(clock, stamps, all)
    ensures var begin := Waited(Limiter(clock, stamps, []), idle, over).clock;
      && StampsOk(begin, stamps, all) && begin >= clock
      && (all != [] ==> begin >= all[|all| - 1] + MIN_CALL_INTERVAL)
  {
    assert stamps != [] ==> stamps[|stamps| - 1] == all[|all| - 1];
  }

  /** One call of the gateway: the idle time before it, the excess of its first sleep, and what the provider does. */
  datatype Turn = Turn(idle: Span, over: Span, tries: nat -> Try)

  function History(start: int, turns: seq<Turn>): Limiter {
    if turns == [] then Limiter(start, [], [])
    else
      var t := turns[|turns| - 1];
      Paced(History(start, turns[..|turns| - 1]), t.idle, t.over, t.tries).0
  }

  lemma HistorySnoc(start: int, turns: seq<Turn>, t: Turn)
    ensures History(start, turns + [t]) == Paced(History(start, turns), t.idle, t.over, t.tries).0
  {
    assert (turns + [t])[..|turns|] == turns;
  }

  lemma {:induction false} HistoryKeeps(start: int, turns: seq<Turn>)
    ensures Between(History(start, turns))
  {
    if turns != [] {
      var n := |turns| - 1;
      HistoryKeeps(start, turns[..n]);
      PacedKeeps(History(start, turns[..n]), turns[n].idle, turns[n].over, turns[n].tries);
    }
  }

  // ------------------------------------------------------------------------ results

  function InWindow(times: seq<int>, from: int): set<nat> {
    set i: nat | i < |times| && from <= times[i] < from + WINDOW
  }

  lemma {:induction false} RangeSize(lo: nat, n: nat, s: set<nat>)
    requires forall i | i in s :: lo <= i < lo + n
    ensures |s| <= n
  {
    if n == 0 {
      assert s == {};
    } else {
      RangeSize(lo, n - 1, s - {lo + n - 1});
    }
  }

  lemma {:induction false} FirstOf(s: set<nat>) returns (lo: nat)
    requires s != {}
    ensures lo in s && forall i | i in s :: lo <= i
  {
    var x :| x in s;
    if s == {x} {
      lo := x;
    } else {
      var rest := FirstOf(s - {x});
      lo := if x < rest then x else rest;
      forall i | i in s ensures lo <= i {
        assert i == x || i in s - {x};
      }
    }
  }

  /** Times at least four seconds apart: at most fifteen in any half-open minute. */
  lemma FifteenAMinute(times: seq<int>, from: int)
    requires Spread(times)
    ensures |InWindow(times, from)| <= 15
  {
    var s := InWindow(times, from);
    if s != {} {
      var lo := FirstOf(s);
      forall i | i in s ensures lo <= i < lo + 15 {
        if i > lo {
          SpreadAt(times, lo, i);
        }
      }
      RangeSize(lo, 15, s);
    }
  }

  /**
   After any calls: successes are four seconds apart, at most fifteen in any minute, and the list has at
   most fifteen entries.
   */
  lemma QuotaKept(start: int, turns: seq<Turn>, from: int)
    ensures var st := History(start, turns);
      && Spread(Successes(st.calls))
      && |InWindow(Successes(st.calls), from)| <= 15
      && |st.stamps| <= 15
  {
    HistoryKeeps(start, turns);
    var st := History(start, turns);
    var all := Successes(st.calls);
    FifteenAMinute(all, from);
    ListStaysShort(st.clock, st.stamps, all);
  }

  lemma ListStaysShort(clock: int, stamps: seq<int>, all: seq<int>)
    requires StampsOk(clock, stamps, all)
    ensures |stamps| <= 15
  {
    if stamps != [] {
      SpreadTail(stamps, all);
      SpreadAt(stamps, 0, |stamps| - 1);
    }
  }

  /**
   After any calls, provider calls rest: four seconds after an answer, ten after a failure that is
   retried, not at all after one that is raised.
   */
  lemma CallsAreApart(start: int, turns: seq<Turn>, k: nat)
    requires 0 < k < |History(start, turns).calls|
    ensures var calls := History(start, turns).calls; calls[k].start >= calls[k - 1].end + Rest(calls[k - 1].kind)
  {
    HistoryKeeps(start, turns);
    CallsRestAt(History(start, turns).calls, k);
  }

  /**
   The list ends with the latest success exactly as long as a minute has not passed between the two clock
   readings after it.
   */
  lemma ListEndsWithLatest(st: Limiter, t: Try)
    requires Ready(st) && t.reply == Answered
    ensures var r := AttemptOne(st, 0, t).0;
      && Successes(r.calls) == Successes(st.calls) + [st.clock + t.took]
      && (r.stamps != [] && r.stamps[|r.stamps| - 1] == st.clock + t.took <==> t.gap < WINDOW)
      && (r.stamps == [] <==> t.gap >= WINDOW)
  {
    var end := st.clock + t.took;
    SuccessesSnoc(st.calls, Call(st.clock, end, Success));
    StampsSnoc(st.clock, st.stamps, Successes(st.calls), end, end + t.gap);
  }

  /**
   A call is answered exactly when one of its first four attempts is, and those before it failed in a way
   worth retrying.
   */
  lemma {:induction false} AnsweredIff(st: Limiter, k: nat, tries: nat -> Try)
    requires k <= MAX_RETRIES
    ensures Attempts(st, k, tries).1 <==>
              exists j: nat | k <= j <= MAX_RETRIES ::
                tries(j).reply == Answered
                && forall i: nat | k <= i < j :: tries(i).reply in {RateLimited(false), Unavailable, ConnectionLost}
    decreases MAX_RETRIES - k
  {
    var (next, kind) := AttemptOne(st, k, tries(k));
    if kind == Retried {
      AnsweredIff(next, k + 1, tries);
    }
  }

  /** One of the first four tries is answered, and those before it fail in a way that is retried. */
  ghost predicate Answers(tries: nat -> Try) {
    exists j: nat | j <= 3 ::
      tries(j).reply == Answered
      && forall i: nat | i < j :: tries(i).reply in {RateLimited(false), Unavailable, ConnectionLost}
  }

  lemma PacedAnswers(st: Limiter, idle: Span, over: Span, tries: nat -> Try)
    ensures Paced(st, idle, over, tries).1 <==> Answers(tries)
  {
    AnsweredIff(Waited(st, idle, over), 0, tries);
  }

  /** The seconds before the next try: doubling from 15 after a rate limit, from 10 after an outage. */
  function Pauses(reply: Reply): seq<int> {
    if reply.RateLimited? then [15, 30, 60] else [10, 20, 40]
  }

  /** One try that does not end the call. */
  lemma RetriedIff(st: Limiter, k: nat, t: Try)
    requires k <= MAX_RETRIES
    ensures var (next, kind) := AttemptOne(st, k, t);
      && next.calls == st.calls + [Call(st.clock, st.clock + t.took, kind)]
      && (kind == Retried <==> k < 3 && t.reply in {RateLimited(false), Unavailable, ConnectionLost})
      && (kind == Success <==> t.reply == Answered)
      && (kind == Retried ==> next.clock == st.clock + t.took + Pauses(t.reply)[k] * 1_000_000_000 + t.over)
  {
  }

  /** Try number `j` of a call whose tries from number `k` on are `calls[from..]`. */
  ghost predicate TryAt(calls: seq<Call>, from: nat, start: int, k: nat, j: nat, tries: nat -> Try)
    requires k <= j && from + j - k < |calls|
  {
    var c := calls[from + j - k];
    && j <= 3 && c.end == c.start + tries(j).took
    && (j == k ==> c.start == start)
    && (j > k ==>
          && tries(j - 1).reply in {RateLimited(false), Unavailable, ConnectionLost}
          && c.start == calls[from + j - k - 1].end
                        + Pauses(tries(j - 1).reply)[j - 1] * 1_000_000_000 + tries(j - 1).over)
  }

  lemma {:induction false} AttemptsTimed(st: Limiter, k: nat, tries: nat -> Try, j: nat)
    requires k <= j && k <= MAX_RETRIES && |st.calls| + j - k < |Attempts(st, k, tries).0.calls|
    ensures st.calls <= Attempts(st, k, tries).0.calls
    ensures TryAt(Attempts(st, k, tries).0.calls, |st.calls|, st.clock, k, j, tries)
    decreases MAX_RETRIES - k
  {
    var (next, kind) := AttemptOne(st, k, tries(k));
    RetriedIff(st, k, tries(k));
    if kind == Retried {
      var calls := Attempts(next, k + 1, tries).0.calls;
      if j > k {
        AttemptsTimed(next, k + 1, tries, j);
      } else {
        AttemptsExtend(next, k + 1, tries);
      }
      assert calls[|st.calls|] == next.calls[|st.calls|];
    }
  }

  lemma {:induction false} AttemptsExtend(st: Limiter, k: nat, tries: nat -> Try)
    requires k <= MAX_RETRIES
    ensures st.calls <= Attempts(st, k, tries).0.calls && |st.calls| < |Attempts(st, k, tries).0.calls|
    decreases MAX_RETRIES - k
  {
    var (next, kind) := AttemptOne(st, k, tries(k));
    if kind == Retried {
      AttemptsExtend(next, k + 1, tries);
    }
  }

  /**
   The timeline of one gateway call: the first try starts at once, or four seconds after the last
   listed success if that is later; each further one follows a rate limit, an outage or a lost
   connection after exactly the pause for that failure and number.
   */
  lemma CallTimeline(st: Limiter, idle: Span, over: Span, tries: nat -> Try, j: nat)
    requires |st.calls| + j < |Paced(st, idle, over, tries).0.calls|
    ensures var now := st.clock + idle;
      var start := if st.stamps == [] || now >= st.stamps[|st.stamps| - 1] + 4 * SECOND then now
                   else st.stamps[|st.stamps| - 1] + 4 * SECOND + over;
      TryAt(Paced(st, idle, over, tries).0.calls, |st.calls|, start, 0, j, tries)
  {
    AttemptsTimed(Waited(st, idle, over), 0, tries, j);
  }

  /** A call that was not answered started at least four seconds after the latest answer. */
  lemma {:induction false} SuccessRests(calls: seq<Call>)
    requires CallsRest(calls) && calls != [] && calls[|calls| - 1].kind != Success
    ensures Successes(calls) != [] ==>
              calls[|calls| - 1].start >= Successes(calls)[|Successes(calls)| - 1] + MIN_CALL_INTERVAL
  {
    var n := |calls| - 1;
    var front := calls[..n];
    assert Successes(calls) == Successes(front) + [] == Successes(front);
    if n > 0 {
      assert front[n - 1] == calls[n - 1];
      if front[n - 1].kind != Success {
        SuccessRests(front);
      }
    }
  }

  /**
   The next call is sure to start four seconds after the previous one ended exactly when that one was
   answered, or the time has passed anyway.
   */
  lemma NextCallPacedIff(st: Limiter, last: Call)
    requires Between(st) && st.calls != [] && last == st.calls[|st.calls| - 1]
    ensures (forall idle: Span, over: Span :: Waited(st, idle, over).clock >= last.end + MIN_CALL_INTERVAL)
       <==> last.kind == Success || st.clock >= last.end + MIN_CALL_INTERVAL
  {
    if last.kind == Success {
      forall idle: Span, over: Span ensures Waited(st, idle, over).clock >= last.end + MIN_CALL_INTERVAL {
        WaitSuffices(st, idle, over);
      }
    } else {
      SuccessRests(st.calls);
      var all := Successes(st.calls);
      assert st.stamps != [] ==> st.stamps[|st.stamps| - 1] == all[|all| - 1];
      assert Waited(st, 0, 0).clock == st.clock;
    }
  }

  /** Only answered calls are paced: two refused calls may reach the provider at the same moment. */
  lemma RefusedCallsAreNotPaced(start: int)
    ensures var refused := Turn(0, 0, _ => Try(RateLimited(true), 0, 0, 0));
      History(start, [refused, refused]).calls == [Call(start, start, Raised), Call(start, start, Raised)]
  {
    var refused := Turn(0, 0, _ => Try(RateLimited(true), 0, 0, 0));
    assert [refused, refused][..1] == [refused];
    assert [refused][..0] == [];
    assert History(start, [refused]) == Limiter(start, [], [Call(start, start, Raised)]);
  }
}
