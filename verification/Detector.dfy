/** `ContradictionDetector.detect`: flag first, confirm second, one commit per confirmed pair. */
module Detector {
  import opened Prelude
  import opened Knowledge
  import opened Overlap

  const MAX_CONTRADICTION_PAIRS: nat := 10

  datatype FlagReply = FlagFails | NoFlag | Flag
  datatype ConfirmReply = ConfirmFails | Refuses | Confirms

  /** The judges' replies on one pair, and whether its commit succeeds. */
  datatype PairReply = PairReply(flag: FlagReply, confirm: ConfirmReply, commit: bool)

  /** `detect` between two pairs. */
  datatype Detecting = Detecting(db: Db, rows: seq<nat>, live: bool)

  /** `_confirmed_exists`: either order. */
  predicate ConfirmedExists(db: Db, a: nat, b: nat) {
    exists i | 0 <= i < |db.contradictions| ::
      var row := db.contradictions[i];
      row.status == Confirmed && ((row.a == a && row.b == b) || (row.a == b && row.b == a))
  }

  function Persist(st: Detecting, a: nat, b: nat, run: nat): Detecting {
    var row := |st.db.contradictions|;
    Detecting(
      st.db.(contradictions := st.db.contradictions + [Contradiction(run, a, b, Confirmed)],
             audits := st.db.audits + [Conflict(row)]),
      st.rows + [row], true)
  }

  function DetectOne(st: Detecting, a: Claim, b: Claim, run: nat, reply: PairReply): Detecting {
    if ConfirmedExists(st.db, a.id, b.id) then st
    else
      match reply.flag
      case FlagFails => st.(live := false)
      case NoFlag => st
      case Flag =>
        var signal := NegationSignal(a.tokens, b.tokens);
        if !signal && reply.confirm == ConfirmFails then st.(live := false)
        else if !signal && reply.confirm == Refuses then st
        else if !reply.commit then st.(live := false)
        else Persist(st, a.id, b.id, run)
  }

  function DetectAll(st: Detecting, pairs: seq<(Claim, Claim)>, run: nat, reply: nat -> PairReply): Detecting {
    if pairs == [] then st
    else
      var n := |pairs| - 1;
      var before := DetectAll(st, pairs[..n], run, reply);
      if !before.live then before else DetectOne(before, pairs[n].0, pairs[n].1, run, reply(n))
  }

  function Capped<T>(s: seq<T>): seq<T> {
    if |s| > MAX_CONTRADICTION_PAIRS then s[..MAX_CONTRADICTION_PAIRS] else s
  }

  /** A whole call; `None` is a raised error. */
  function DetectRun(db: Db, claims: seq<Claim>, run: nat, reply: nat -> PairReply): (Db, Option<seq<nat>>) {
    var st := DetectAll(Detecting(db, [], true), Capped(CandidatesOf(claims)), run, reply);
    (st.db, if st.live then Some(st.rows) else None)
  }

  /** The detector, with counters for what it asked and found. */
  class ContradictionDetector {
    const store: Store
    var judgeCalls: nat

    constructor (store: Store)
      ensures this.store == store && judgeCalls == 0
    {
      this.store := store;
      judgeCalls := 0;
    }

    /** The body of the loop for one pair: the new state of the loop, not `live` if the call raises. */
    method DetectPair(st: Detecting, a: Claim, b: Claim, run: nat, reply: PairReply) returns (next: Detecting)
      requires st.live && st.db == store.db
      modifies this, store
      ensures next == DetectOne(st, a, b, run, reply) && store.db == next.db
      ensures judgeCalls <= old(judgeCalls) + 2
    {
      if ConfirmedExists(store.db, a.id, b.id) {
        return st;
      }
      judgeCalls := judgeCalls + 1;
      if reply.flag == FlagFails {
        return st.(live := false);
      }
      if reply.flag != Flag {
        return st;
      }
      if !NegationSignal(a.tokens, b.tokens) {
        judgeCalls := judgeCalls + 1;
        if reply.confirm == ConfirmFails {
          return st.(live := false);
        }
        if reply.confirm == Refuses {
          return st;
        }
      }
      if !reply.commit {
        return st.(live := false);
      }
      var row := |store.db.contradictions|;
      store.db := store.db.(
        contradictions := store.db.contradictions + [Contradiction(run, a.id, b.id, Confirmed)],
        audits := store.db.audits + [Conflict(row)]);
      return Detecting(store.db, st.rows + [row], true);
    }

    method Detect(claims: seq<Claim>, run: nat, reply: nat -> PairReply) returns (rows: Option<seq<nat>>)
      modifies this, store
      ensures (store.db, rows) == DetectRun(old(store.db), claims, run, reply)
      ensures judgeCalls <= old(judgeCalls) + 2 * MAX_CONTRADICTION_PAIRS
    {
      var candidates := CandidatePairs(claims);
      candidates := Capped(candidates);
      var st := Detecting(store.db, [], true);
      ghost var start := st;
      for k := 0 to |candidates|
        invariant st.live && st.db == store.db && st == DetectAll(start, candidates[..k], run, reply)
        invariant judgeCalls <= old(judgeCalls) + 2 * k
      {
        assert candidates[..k + 1][..k] == candidates[..k];
        StopsWhere(start, candidates, k + 1, run, reply);
        st := DetectPair(st, candidates[k].0, candidates[k].1, run, reply(k));
        if !st.live {
          return None;
        }
      }
      assert candidates[..|candidates|] == candidates;
      return Some(st.rows);
    }
  }

  lemma {:induction false} StopsWhere(st: Detecting, pairs: seq<(Claim, Claim)>, k: nat, run: nat,
                                      reply: nat -> PairReply)
    requires k <= |pairs|
    ensures var part := DetectAll(st, pairs[..k], run, reply);
      !part.live ==> DetectAll(st, pairs, run, reply) == part
  {
    if k == |pairs| {
      assert pairs[..k] == pairs;
    } else {
      var n := |pairs| - 1;
      assert pairs[..n][..k] == pairs[..k];
      StopsWhere(st, pairs[..n], k, run, reply);
    }
  }

  // ------------------------------------------------------------------ what is kept

  function NotesOn(audits: seq<Audit>, row: nat): nat {
    if audits == [] then 0
    else
      var n := |audits| - 1;
      NotesOn(audits[..n], row) + (if audits[n] == Conflict(row) then 1 else 0)
  }

  predicate SamePair(x: Contradiction, y: Contradiction) {
    (x.a == y.a && x.b == y.b) || (x.a == y.b && x.b == y.a)
  }

  /** Confirmed rows only, one per unordered pair, each with one audit row. */
  ghost predicate ConflictsOk(db: Db) {
    && (forall i | 0 <= i < |db.contradictions| :: db.contradictions[i].status == Confirmed)
    && (forall i, j | 0 <= i < j < |db.contradictions| :: !SamePair(db.contradictions[i], db.contradictions[j]))
    && (forall i | 0 <= i < |db.contradictions| :: NotesOn(db.audits, i) == 1)
    && (forall a | a in db.audits && a.Conflict? :: a.row < |db.contradictions|)
  }

  lemma NotesSnoc(audits: seq<Audit>, audit: Audit, row: nat)
    ensures NotesOn(audits + [audit], row) == NotesOn(audits, row) + (if audit == Conflict(row) then 1 else 0)
  {
    assert (audits + [audit])[..|audits|] == audits;
  }

  lemma {:induction false} NoNotesYet(audits: seq<Audit>, row: nat)
    requires forall a | a in audits && a.Conflict? :: a.row != row
    ensures NotesOn(audits, row) == 0
  {
    if audits != [] {
      NoNotesYet(audits[..|audits| - 1], row);
    }
  }

  lemma PersistKeeps(st: Detecting, a: nat, b: nat, run: nat)
    requires ConflictsOk(st.db) && !ConfirmedExists(st.db, a, b)
    ensures ConflictsOk(Persist(st, a, b, run).db)
  {
    var r := Persist(st, a, b, run);
    var row := |st.db.contradictions|;
    NoNotesYet(st.db.audits, row);
    forall i | 0 <= i < |r.db.contradictions|
      ensures NotesOn(r.db.audits, i) == 1 && (i < row ==> !SamePair(r.db.contradictions[i], r.db.contradictions[row]))
    {
      NotesSnoc(st.db.audits, Conflict(row), i);
      assert i < row ==> st.db.contradictions[i].status == Confirmed;
    }
  }

  /** `row` names the two statements of one of `pairs`. */
  ghost predicate OfPair(row: Contradiction, pairs: seq<(Claim, Claim)>) {
    exists k | 0 <= k < |pairs| :: row.a == pairs[k].0.id && row.b == pairs[k].1.id
  }

  /** What one call has done up to some pair. */
  ghost predicate DetectedSoFar(before: Db, st: Detecting, pairs: seq<(Claim, Claim)>, run: nat) {
    && ConflictsOk(st.db)
    && st.db == before.(contradictions := st.db.contradictions, audits := st.db.audits)
    && before.contradictions <= st.db.contradictions && before.audits <= st.db.audits
    && |st.rows| == |st.db.contradictions| - |before.contradictions|
    && (forall i | 0 <= i < |st.rows| :: st.rows[i] == |before.contradictions| + i)
    && (forall i | |before.contradictions| <= i < |st.db.contradictions| ::
          st.db.contradictions[i].run == run && OfPair(st.db.contradictions[i], pairs))
  }

  lemma {:induction false} DetectAllKeeps(db: Db, pairs: seq<(Claim, Claim)>, run: nat, reply: nat -> PairReply)
    requires ConflictsOk(db)
    ensures DetectedSoFar(db, DetectAll(Detecting(db, [], true), pairs, run, reply), pairs, run)
  {
    if pairs != [] {
      var n := |pairs| - 1;
      DetectAllKeeps(db, pairs[..n], run, reply);
      var b := DetectAll(Detecting(db, [], true), pairs[..n], run, reply);
      WiderPairs(db, b, pairs[..n], pairs, run);
      var r := DetectAll(Detecting(db, [], true), pairs, run, reply);
      if r.db != b.db {
        var p := pairs[n];
        PersistKeeps(b, p.0.id, p.1.id, run);
        assert r == Persist(b, p.0.id, p.1.id, run);
        assert OfPair(Contradiction(run, p.0.id, p.1.id, Confirmed), pairs);
      }
    }
  }

  lemma WiderPairs(db: Db, st: Detecting, few: seq<(Claim, Claim)>, many: seq<(Claim, Claim)>, run: nat)
    requires DetectedSoFar(db, st, few, run) && few <= many
    ensures DetectedSoFar(db, st, many, run)
  {
    forall row | OfPair(row, few) ensures OfPair(row, many) {
      var k :| 0 <= k < |few| && row.a == few[k].0.id && row.b == few[k].1.id;
      assert many[k] == few[k];
    }
  }

  /**
   A call keeps the detector's invariant and the rows from before it however it ends, and one that
   returns names exactly the rows it added.
   */
  lemma DetectKeeps(db: Db, claims: seq<Claim>, run: nat, reply: nat -> PairReply)
    requires ConflictsOk(db)
    ensures var (db', rows) := DetectRun(db, claims, run, reply);
      && ConflictsOk(db')
      && db' == db.(contradictions := db'.contradictions, audits := db'.audits)
      && db.contradictions <= db'.contradictions && db.audits <= db'.audits
      && |db'.contradictions| <= |db.contradictions| + MAX_CONTRADICTION_PAIRS
      && (rows.Some? ==>
            && |rows.value| == |db'.contradictions| - |db.contradictions|
            && forall i | 0 <= i < |rows.value| :: rows.value[i] == |db.contradictions| + i)
      && (forall i | |db.contradictions| <= i < |db'.contradictions| ::
            db'.contradictions[i].run == run && OfPair(db'.contradictions[i], CandidatesOf(claims)))
  {
    var pairs := Capped(CandidatesOf(claims));
    DetectAllKeeps(db, pairs, run, reply);
    AtMostOneEach(db, pairs, run, reply);
    WiderPairs(db, DetectAll(Detecting(db, [], true), pairs, run, reply), pairs, CandidatesOf(claims), run);
  }

  lemma {:induction false} AtMostOneEach(db: Db, pairs: seq<(Claim, Claim)>, run: nat, reply: nat -> PairReply)
    ensures |DetectAll(Detecting(db, [], true), pairs, run, reply).db.contradictions| <= |db.contradictions| + |pairs|
  {
    if pairs != [] {
      AtMostOneEach(db, pairs[..|pairs| - 1], run, reply);
    }
  }

  /** The only audit rows a call adds are about contradictions. */
  lemma {:induction false} DetectAllAudits(db: Db, pairs: seq<(Claim, Claim)>, run: nat, reply: nat -> PairReply)
    ensures db.audits <= DetectAll(Detecting(db, [], true), pairs, run, reply).db.audits
    ensures forall a | a in DetectAll(Detecting(db, [], true), pairs, run, reply).db.audits[|db.audits|..] ::
              a.Conflict?
  {
    if pairs != [] {
      DetectAllAudits(db, pairs[..|pairs| - 1], run, reply);
    }
  }

  /**
   A pair that is asked about gets a row exactly when it has none yet, is flagged, and is confirmed by
   signal or judge.
   */
  lemma WhenAPairIsRecorded(st: Detecting, a: Claim, b: Claim, run: nat, reply: PairReply)
    requires st.live && DetectOne(st, a, b, run, reply).live
    ensures ConfirmedExists(DetectOne(st, a, b, run, reply).db, a.id, b.id)
       <==> ConfirmedExists(st.db, a.id, b.id)
            || (reply.flag == Flag && (NegationSignal(a.tokens, b.tokens) || reply.confirm == Confirms))
  {
    var r := DetectOne(st, a, b, run, reply);
    if r.db != st.db {
      assert r.db.contradictions[|st.db.contradictions|] == Contradiction(run, a.id, b.id, Confirmed);
    }
  }

  /** Pairs with the lower id first, no two of the same statements. */
  ghost predicate DistinctPairs(pairs: seq<(Claim, Claim)>) {
    && (forall p | p in pairs :: p.0.id < p.1.id)
    && (forall i, j | 0 <= i < j < |pairs| :: pairs[i].0.id != pairs[j].0.id || pairs[i].1.id != pairs[j].1.id)
  }

  predicate Confirmable(a: Claim, b: Claim, reply: PairReply) {
    reply.flag == Flag && (NegationSignal(a.tokens, b.tokens) || reply.confirm == Confirms)
  }

  /** A row for one pair says nothing about another. */
  lemma OtherPairsStay(st: Detecting, a: Claim, b: Claim, run: nat, reply: PairReply, x: nat, y: nat)
    requires st.live && x < y && a.id < b.id && (a.id != x || b.id != y)
    ensures ConfirmedExists(DetectOne(st, a, b, run, reply).db, x, y) <==> ConfirmedExists(st.db, x, y)
  {
    var r := DetectOne(st, a, b, run, reply);
    if ConfirmedExists(st.db, x, y) {
      var i :| 0 <= i < |st.db.contradictions|
        && st.db.contradictions[i].status == Confirmed
        && ((st.db.contradictions[i].a == x && st.db.contradictions[i].b == y)
            || (st.db.contradictions[i].a == y && st.db.contradictions[i].b == x));
      assert r.db.contradictions[i] == st.db.contradictions[i];
    }
  }

  lemma {:induction false} DetectAllIff(db: Db, pairs: seq<(Claim, Claim)>, k: nat, run: nat, reply: nat -> PairReply)
    requires DistinctPairs(pairs) && k < |pairs| && DetectAll(Detecting(db, [], true), pairs, run, reply).live
    ensures ConfirmedExists(DetectAll(Detecting(db, [], true), pairs, run, reply).db, pairs[k].0.id, pairs[k].1.id)
       <==> ConfirmedExists(db, pairs[k].0.id, pairs[k].1.id) || Confirmable(pairs[k].0, pairs[k].1, reply(k))
  {
    var n := |pairs| - 1;
    var b := DetectAll(Detecting(db, [], true), pairs[..n], run, reply);
    assert pairs[k] in pairs && pairs[n] in pairs;
    assert DistinctPairs(pairs[..n]);
    if k < n {
      DetectAllIff(db, pairs[..n], k, run, reply);
      OtherPairsStay(b, pairs[n].0, pairs[n].1, run, reply(n), pairs[k].0.id, pairs[k].1.id);
    } else {
      UntouchedPair(db, pairs[..n], pairs[n].0.id, pairs[n].1.id, run, reply);
      WhenAPairIsRecorded(b, pairs[n].0, pairs[n].1, run, reply(n));
    }
  }

  lemma {:induction false} UntouchedPair(db: Db, pairs: seq<(Claim, Claim)>, x: nat, y: nat, run: nat,
                                         reply: nat -> PairReply)
    requires x < y && forall p | p in pairs :: p.0.id < p.1.id && (p.0.id != x || p.1.id != y)
    ensures ConfirmedExists(DetectAll(Detecting(db, [], true), pairs, run, reply).db, x, y)
       <==> ConfirmedExists(db, x, y)
  {
    if pairs != [] {
      var n := |pairs| - 1;
      UntouchedPair(db, pairs[..n], x, y, run, reply);
      var b := DetectAll(Detecting(db, [], true), pairs[..n], run, reply);
      assert pairs[n] in pairs;
      if b.live {
        OtherPairsStay(b, pairs[n].0, pairs[n].1, run, reply(n), x, y);
      }
    }
  }

  /**
   After a call that returns, each of the first ten candidate pairs is recorded exactly when it was
   before, or was flagged and confirmed by the signal or the second judge.
   */
  lemma DetectedIff(db: Db, claims: seq<Claim>, k: nat, run: nat, reply: nat -> PairReply)
    requires DistinctIds(claims) && k < Min(10, |CandidatesOf(claims)|) && DetectRun(db, claims, run, reply).1.Some?
    ensures var pair := CandidatesOf(claims)[k];
      ConfirmedExists(DetectRun(db, claims, run, reply).0, pair.0.id, pair.1.id)
      <==> ConfirmedExists(db, pair.0.id, pair.1.id) || Confirmable(pair.0, pair.1, reply(k))
  {
    CandidatesDistinct(claims);
    FirstTen(CandidatesOf(claims));
    DetectAllIff(db, Capped(CandidatesOf(claims)), k, run, reply);
  }

  /** However a call ends, a candidate pair after the first ten is recorded exactly as before. */
  lemma LaterPairsStay(db: Db, claims: seq<Claim>, k: nat, run: nat, reply: nat -> PairReply)
    requires DistinctIds(claims) && 10 <= k < |CandidatesOf(claims)|
    ensures var pair := CandidatesOf(claims)[k];
      ConfirmedExists(DetectRun(db, claims, run, reply).0, pair.0.id, pair.1.id)
      <==> ConfirmedExists(db, pair.0.id, pair.1.id)
  {
    var all := CandidatesOf(claims);
    AllDistinct(claims);
    FirstTen(all);
    DistinctFront(all, k);
    forall p | p in Capped(all) ensures p in all[..k] {
      var j :| 0 <= j < |Capped(all)| && Capped(all)[j] == p;
      assert all[..k][j] == p;
    }
    UntouchedPair(db, Capped(all), all[k].0.id, all[k].1.id, run, reply);
  }

  lemma FirstTen<T>(s: seq<T>)
    ensures Capped(s) == s[..Min(10, |s|)]
  {
  }

  lemma CandidatesDistinct(claims: seq<Claim>)
    requires DistinctIds(claims)
    ensures DistinctPairs(Capped(CandidatesOf(claims)))
  {
    AllDistinct(claims);
    FirstTen(CandidatesOf(claims));
    if |CandidatesOf(claims)| > 10 {
      DistinctFront(CandidatesOf(claims), 10);
    }
  }

  lemma AllDistinct(claims: seq<Claim>)
    requires DistinctIds(claims)
    ensures DistinctPairs(CandidatesOf(claims))
  {
    EachPairOnce(claims);
    var all := CandidatesOf(claims);
    forall i, j | 0 <= i < j < |all| ensures all[i].0.id != all[j].0.id || all[i].1.id != all[j].1.id {
      assert all[i] in all && all[j] in all;
      IdsTell(claims, all[i].0, all[j].0);
      IdsTell(claims, all[i].1, all[j].1);
    }
  }

  lemma IdsTell(claims: seq<Claim>, a: Claim, b: Claim)
    requires DistinctIds(claims) && a in claims && b in claims
    ensures a.id == b.id <==> a == b
  {
  }

  // ------------------------------------------------------------ calls that raise

  /** The judges' replies and the commit on an unrecorded pair end the call with an error. */
  predicate Breaks(db: Db, a: Claim, b: Claim, reply: PairReply) {
    && !ConfirmedExists(db, a.id, b.id)
    && (|| reply.flag == FlagFails
        || (reply.flag == Flag && !NegationSignal(a.tokens, b.tokens) && reply.confirm == ConfirmFails)
        || (Confirmable(a, b, reply) && !reply.commit))
  }

  ghost predicate NoneBreaks(db: Db, pairs: seq<(Claim, Claim)>, reply: nat -> PairReply) {
    forall j | 0 <= j < |pairs| :: !Breaks(db, pairs[j].0, pairs[j].1, reply(j))
  }

  /** Position `k` is the first whose pair breaks the call. */
  ghost predicate FirstBreak(db: Db, pairs: seq<(Claim, Claim)>, k: nat, reply: nat -> PairReply) {
    k < |pairs| && Breaks(db, pairs[k].0, pairs[k].1, reply(k)) && NoneBreaks(db, pairs[..k], reply)
  }

  lemma NoneBreaksSnoc(db: Db, pairs: seq<(Claim, Claim)>, reply: nat -> PairReply)
    requires pairs != []
    ensures var n := |pairs| - 1;
      NoneBreaks(db, pairs, reply) <==>
        NoneBreaks(db, pairs[..n], reply) && !Breaks(db, pairs[n].0, pairs[n].1, reply(n))
  {
    assert forall j | 0 <= j < |pairs| - 1 :: pairs[..|pairs| - 1][j] == pairs[j];
  }

  lemma OneLive(st: Detecting, a: Claim, b: Claim, run: nat, reply: PairReply)
    requires st.live
    ensures DetectOne(st, a, b, run, reply).live <==> !Breaks(st.db, a, b, reply)
    ensures !DetectOne(st, a, b, run, reply).live ==> DetectOne(st, a, b, run, reply) == st.(live := false)
  {
  }

  lemma DistinctFront(pairs: seq<(Claim, Claim)>, k: nat)
    requires DistinctPairs(pairs) && k < |pairs|
    ensures DistinctPairs(pairs[..k]) && pairs[k].0.id < pairs[k].1.id
    ensures forall p | p in pairs[..k] :: p.0.id < p.1.id && (p.0.id != pairs[k].0.id || p.1.id != pairs[k].1.id)
  {
    assert pairs[k] in pairs;
    forall p | p in pairs[..k] ensures p in pairs {
    }
  }

  lemma {:induction false} LiveIff(db: Db, pairs: seq<(Claim, Claim)>, run: nat, reply: nat -> PairReply)
    requires DistinctPairs(pairs)
    ensures DetectAll(Detecting(db, [], true), pairs, run, reply).live <==> NoneBreaks(db, pairs, reply)
  {
    if pairs != [] {
      var n := |pairs| - 1;
      var b := DetectAll(Detecting(db, [], true), pairs[..n], run, reply);
      DistinctFront(pairs, n);
      LiveIff(db, pairs[..n], run, reply);
      NoneBreaksSnoc(db, pairs, reply);
      if b.live {
        UntouchedPair(db, pairs[..n], pairs[n].0.id, pairs[n].1.id, run, reply);
        OneLive(b, pairs[n].0, pairs[n].1, run, reply(n));
      }
    }
  }

  /** A call raises exactly when one of the first ten candidate pairs breaks it. */
  lemma RaisesIff(db: Db, claims: seq<Claim>, run: nat, reply: nat -> PairReply)
    requires DistinctIds(claims)
    ensures DetectRun(db, claims, run, reply).1.None? <==>
              exists k | 0 <= k < Min(10, |CandidatesOf(claims)|) ::
                Breaks(db, CandidatesOf(claims)[k].0, CandidatesOf(claims)[k].1, reply(k))
  {
    CandidatesDistinct(claims);
    FirstTen(CandidatesOf(claims));
    LiveIff(db, Capped(CandidatesOf(claims)), run, reply);
  }

  /** A raising call has done exactly what it did before the pair that broke it. */
  lemma StopsAtBreak(db: Db, pairs: seq<(Claim, Claim)>, k: nat, run: nat, reply: nat -> PairReply)
    requires DistinctPairs(pairs) && FirstBreak(db, pairs, k, reply)
    ensures var before := DetectAll(Detecting(db, [], true), pairs[..k], run, reply);
      before.live && DetectAll(Detecting(db, [], true), pairs, run, reply) == before.(live := false)
  {
    var start := Detecting(db, [], true);
    var before := DetectAll(start, pairs[..k], run, reply);
    DistinctFront(pairs, k);
    LiveIff(db, pairs[..k], run, reply);
    UntouchedPair(db, pairs[..k], pairs[k].0.id, pairs[k].1.id, run, reply);
    OneLive(before, pairs[k].0, pairs[k].1, run, reply(k));
    DetectAllSnoc(start, pairs, k, run, reply);
    StopsWhere(start, pairs, k + 1, run, reply);
  }

  lemma DetectAllSnoc(st: Detecting, pairs: seq<(Claim, Claim)>, k: nat, run: nat, reply: nat -> PairReply)
    requires k < |pairs| && DetectAll(st, pairs[..k], run, reply).live
    ensures DetectAll(st, pairs[..k + 1], run, reply)
         == DetectOne(DetectAll(st, pairs[..k], run, reply), pairs[k].0, pairs[k].1, run, reply(k))
  {
    assert pairs[..k + 1][..k] == pairs[..k];
  }

  /**
   Rows committed before a failure survive it: of the pairs before the one that broke the call, each
   is recorded afterwards exactly when it was before or was confirmed; of the rest, exactly as before.
   */
  lemma RowsSurviveFailure(db: Db, claims: seq<Claim>, k: nat, j: nat, run: nat, reply: nat -> PairReply)
    requires DistinctIds(claims) && k < 10 && FirstBreak(db, CandidatesOf(claims), k, reply)
    requires j < Min(10, |CandidatesOf(claims)|)
    ensures DetectRun(db, claims, run, reply).1.None?
    ensures var pair := CandidatesOf(claims)[j];
      ConfirmedExists(DetectRun(db, claims, run, reply).0, pair.0.id, pair.1.id)
      <==> ConfirmedExists(db, pair.0.id, pair.1.id) || (j < k && Confirmable(pair.0, pair.1, reply(j)))
  {
    var pairs := Capped(CandidatesOf(claims));
    FirstTen(CandidatesOf(claims));
    SameBreak(db, CandidatesOf(claims), k, reply);
    CandidatesDistinct(claims);
    StopsAtBreak(db, pairs, k, run, reply);
    DistinctFront(pairs, k);
    if j < k {
      DetectAllIff(db, pairs[..k], j, run, reply);
    } else {
      DistinctFront(pairs, j);
      UntouchedPair(db, pairs[..k], pairs[j].0.id, pairs[j].1.id, run, reply);
    }
  }

  lemma SameBreak(db: Db, all: seq<(Claim, Claim)>, k: nat, reply: nat -> PairReply)
    requires k < 10 && FirstBreak(db, all, k, reply)
    ensures FirstBreak(db, Capped(all), k, reply)
  {
    FirstTen(all);
    assert Capped(all)[..k] == all[..k];
  }

  /** A pair that this call records for the first time. */
  predicate Records(db: Db, a: Claim, b: Claim, reply: PairReply) {
    !ConfirmedExists(db, a.id, b.id) && Confirmable(a, b, reply) && reply.commit
  }

  ghost predicate SomeRecorded(db: Db, pairs: seq<(Claim, Claim)>, reply: nat -> PairReply) {
    exists j | 0 <= j < |pairs| :: Records(db, pairs[j].0, pairs[j].1, reply(j))
  }

  lemma SomeRecordedSnoc(db: Db, pairs: seq<(Claim, Claim)>, reply: nat -> PairReply)
    requires pairs != []
    ensures var n := |pairs| - 1;
      SomeRecorded(db, pairs, reply) <==>
        SomeRecorded(db, pairs[..n], reply) || Records(db, pairs[n].0, pairs[n].1, reply(n))
  {
    var n, front := |pairs| - 1, pairs[..|pairs| - 1];
    assert forall j | 0 <= j < n ::
             Records(db, front[j].0, front[j].1, reply(j)) == Records(db, pairs[j].0, pairs[j].1, reply(j));
  }

  lemma OneAdds(st: Detecting, a: Claim, b: Claim, run: nat, reply: PairReply)
    requires st.live && DetectOne(st, a, b, run, reply).live
    ensures |DetectOne(st, a, b, run, reply).db.contradictions|
         == |st.db.contradictions| + (if Records(st.db, a, b, reply) then 1 else 0)
  {
  }

  lemma {:induction false} AddsIff(db: Db, pairs: seq<(Claim, Claim)>, run: nat, reply: nat -> PairReply)
    requires DistinctPairs(pairs) && DetectAll(Detecting(db, [], true), pairs, run, reply).live
    ensures var after := DetectAll(Detecting(db, [], true), pairs, run, reply).db;
      && |after.contradictions| >= |db.contradictions|
      && (|after.contradictions| > |db.contradictions| <==> SomeRecorded(db, pairs, reply))
  {
    if pairs != [] {
      var n := |pairs| - 1;
      DistinctFront(pairs, n);
      AddsIff(db, pairs[..n], run, reply);
      SomeRecordedSnoc(db, pairs, reply);
      UntouchedPair(db, pairs[..n], pairs[n].0.id, pairs[n].1.id, run, reply);
      OneAdds(DetectAll(Detecting(db, [], true), pairs[..n], run, reply), pairs[n].0, pairs[n].1, run, reply(n));
    }
  }

  /**
   A raising call leaves a new row exactly when some pair before the one that broke it was confirmed and
   not yet recorded.
   */
  lemma FailureLeavesRowsIff(db: Db, claims: seq<Claim>, k: nat, run: nat, reply: nat -> PairReply)
    requires DistinctIds(claims) && k < 10 && FirstBreak(db, CandidatesOf(claims), k, reply)
    ensures var pairs := CandidatesOf(claims);
      var (after, rows) := DetectRun(db, claims, run, reply);
      && rows.None?
      && (|after.contradictions| > |db.contradictions| <==>
            exists j | 0 <= j < k ::
              !ConfirmedExists(db, pairs[j].0.id, pairs[j].1.id) && Confirmable(pairs[j].0, pairs[j].1, reply(j)))
  {
    var pairs := Capped(CandidatesOf(claims));
    FirstTen(CandidatesOf(claims));
    SameBreak(db, CandidatesOf(claims), k, reply);
    CandidatesDistinct(claims);
    StopsAtBreak(db, pairs, k, run, reply);
    DistinctFront(pairs, k);
    AddsIff(db, pairs[..k], run, reply);
    forall j | 0 <= j < k
      ensures Records(db, pairs[..k][j].0, pairs[..k][j].1, reply(j))
         <==> !ConfirmedExists(db, pairs[j].0.id, pairs[j].1.id) && Confirmable(pairs[j].0, pairs[j].1, reply(j))
    {
      assert !Breaks(db, pairs[..k][j].0, pairs[..k][j].1, reply(j));
    }
  }

  /** Three statements alike: the first pair is confirmed and committed, the flag judge fails on the second. */
  function AbortedReply(k: nat): PairReply {
    if k == 0 then PairReply(Flag, Confirms, true) else PairReply(FlagFails, Refuses, true)
  }

  function Alike(id: nat): Claim {
    Claim(id, {"sky"}, true)
  }

  /** The call on them raises and yet leaves a row, against the documentation. */
  lemma AbortedCallLeavesARow(run: nat)
    ensures var (after, rows) := DetectRun(EMPTY, [Alike(0), Alike(1), Alike(2)], run, AbortedReply);
      rows.None? && after.contradictions == [Contradiction(run, 0, 1, Confirmed)]
  {
    AlikeCandidates();
    AlikeDistinct();
    CandidatesDistinct([Alike(0), Alike(1), Alike(2)]);
    AbortedAfterFirst(CandidatesOf([Alike(0), Alike(1), Alike(2)]), run);
  }

  lemma AlikeDistinct()
    ensures DistinctIds([Alike(0), Alike(1), Alike(2)])
  {
  }

  lemma AbortedAfterFirst(pairs: seq<(Claim, Claim)>, run: nat)
    requires DistinctPairs(pairs) && |pairs| >= 2 && pairs[0] == (Alike(0), Alike(1))
    ensures var st := DetectAll(Detecting(EMPTY, [], true), pairs, run, AbortedReply);
      !st.live && st.db.contradictions == [Contradiction(run, 0, 1, Confirmed)]
  {
    assert !ConfirmedExists(EMPTY, pairs[1].0.id, pairs[1].1.id);
    assert pairs[..1][0] == pairs[0];
    assert FirstBreak(EMPTY, pairs, 1, AbortedReply);
    StopsAtBreak(EMPTY, pairs, 1, run, AbortedReply);
    FirstRow(pairs, run);
  }

  lemma FirstRow(pairs: seq<(Claim, Claim)>, run: nat)
    requires pairs != [] && pairs[0] == (Alike(0), Alike(1))
    ensures DetectAll(Detecting(EMPTY, [], true), pairs[..1], run, AbortedReply).db.contradictions
         == [Contradiction(run, 0, 1, Confirmed)]
  {
    assert pairs[..1] == [pairs[0]] && pairs[..1][..0] == [];
    assert !ConfirmedExists(EMPTY, 0, 1);
  }

  lemma {:induction false} InsertLast(c: Claim, sorted: seq<Claim>)
    requires forall x | x in sorted :: x.id < c.id
    ensures Insert(c, sorted) == sorted + [c]
  {
    if sorted != [] {
      assert sorted[0] in sorted;
      InsertLast(c, sorted[1..]);
    }
  }

  lemma {:induction false} AllVerifiedStay(claims: seq<Claim>)
    requires forall c | c in claims :: c.verified
    ensures VerifiedOnly(claims) == claims
  {
    if claims != [] {
      var n := |claims| - 1;
      AllVerifiedStay(claims[..n]);
      assert claims[n] in claims && claims == claims[..n] + [claims[n]];
    }
  }

  predicate Climbs(claims: seq<Claim>) {
    forall i, j | 0 <= i < j < |claims| :: claims[i].id < claims[j].id
  }

  lemma {:induction false} AscendingStay(claims: seq<Claim>)
    requires Climbs(claims)
    ensures SortById(claims) == claims
  {
    if claims != [] {
      var n, front := |claims| - 1, claims[..|claims| - 1];
      assert Climbs(front);
      AscendingStay(front);
      forall x | x in front ensures x.id < claims[n].id {
        var k :| 0 <= k < n && claims[k] == x;
      }
      InsertLast(claims[n], front);
      assert claims == front + [claims[n]];
    }
  }

  lemma AlikeSorted()
    ensures SortById(VerifiedOnly([Alike(0), Alike(1), Alike(2)])) == [Alike(0), Alike(1), Alike(2)]
  {
    AllVerifiedStay([Alike(0), Alike(1), Alike(2)]);
    AscendingStay([Alike(0), Alike(1), Alike(2)]);
  }

  lemma AlikeCandidates()
    ensures CandidatesOf([Alike(0), Alike(1), Alike(2)])
         == [(Alike(0), Alike(1)), (Alike(0), Alike(2)), (Alike(1), Alike(2))]
  {
    var a, b, c := Alike(0), Alike(1), Alike(2);
    AlikeSorted();
    assert IsCandidate(a.tokens, a.tokens) by {
      assert a.tokens + a.tokens == a.tokens && a.tokens * a.tokens == a.tokens && |a.tokens| == 1;
    }
    assert [a, b, c][1..] == [b, c] && [b, c][1..] == [c] && [c][1..] == [];
    assert [b, c][..1] == [b] && [b][..0] == [] && [c][..0] == [];
    assert PairsWith(a, [b]) == [(a, b)] && PairsWith(a, [b, c]) == [(a, b), (a, c)];
    assert PairsWith(b, [c]) == [(b, c)];
    assert PairsFrom([c]) == [];
    assert PairsFrom([b, c]) == [(b, c)];
  }
}
