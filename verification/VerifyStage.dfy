/**
 The verify stage (`app/pipeline/stages/verify.py`): a capped loop over the drafts of a run that ends at
 the first error.
 */
module VerifyStage {
  import opened Prelude
  import opened Knowledge
  import opened Gate

  const MAX_VERIFY: nat := 25

  /** What the judge, the database and the clock do for one draft. */
  datatype Reply = Reply(judge: Judge, commit: bool, delay: nat)

  predicate DraftOf(db: Db, run: nat, s: nat) {
    s < |db.statements| && db.statements[s].run == run && db.statements[s].status == Draft
  }

  function DraftsBelow(db: Db, run: nat, n: nat): seq<nat> {
    if n == 0 then [] else DraftsBelow(db, run, n - 1) + (if DraftOf(db, run, n - 1) then [n - 1] else [])
  }

  /** The first drafts of the run, at most `MAX_VERIFY`. */
  function Chosen(db: Db, run: nat): seq<nat> {
    var all := DraftsBelow(db, run, |db.statements|);
    if |all| > MAX_VERIFY then all[..MAX_VERIFY] else all
  }

  /** The statement's passage is among those of the run's sources. */
  predicate PassageKnown(db: Db, run: nat, s: nat) {
    && s < |db.statements| && db.statements[s].passage < |db.passages|
    && db.passages[db.statements[s].passage].source < |db.sources|
    && db.sources[db.passages[db.statements[s].passage].source].run == run
  }

  /** The loop between two drafts. */
  datatype Checking = Checking(db: Db, count: nat, live: bool)

  function CheckOne(st: Checking, run: nat, s: nat, reply: Reply): Checking {
    if !PassageKnown(st.db, run, s) then st
    else
      var (db', outcome) := VerifyOne(st.db, s, st.db.statements[s].passage, run, reply.judge, reply.commit, false,
                                      reply.delay);
      if outcome == Failed then st.(live := false) else Checking(db', st.count + 1, true)
  }

  function CheckAll(st: Checking, run: nat, ids: seq<nat>, reply: nat -> Reply): Checking {
    if ids == [] then st
    else
      var n := |ids| - 1;
      var before := CheckAll(st, run, ids[..n], reply);
      if !before.live then before else CheckOne(before, run, ids[n], reply(n))
  }

  /** A whole attempt; `None` is a raised error. */
  function StageRun(db: Db, run: nat, reply: nat -> Reply): (Db, Option<nat>) {
    var st := CheckAll(Checking(db, 0, true), run, Chosen(db, run), reply);
    (st.db, if st.live then Some(st.count) else None)
  }

  /** The query of the stage: the drafts in table order, cut off at the cap. */
  method ChooseDrafts(store: Store, run: nat) returns (drafts: seq<nat>)
    ensures drafts == Chosen(store.db, run)
  {
    drafts := [];
    for s := 0 to |store.db.statements|
      invariant drafts == DraftsBelow(store.db, run, s)
    {
      if DraftOf(store.db, run, s) {
        drafts := drafts + [s];
      }
    }
    if |drafts| > MAX_VERIFY {
      drafts := drafts[..MAX_VERIFY];
    }
  }

  method RunVerify(verifier: Verifier, run: nat, reply: nat -> Reply) returns (count: Option<nat>)
    modifies verifier, verifier.store
    ensures (verifier.store.db, count) == StageRun(old(verifier.store.db), run, reply)
  {
    var store := verifier.store;
    var drafts := ChooseDrafts(store, run);
    ghost var start := Checking(store.db, 0, true);
    var checked: nat := 0;
    for k := 0 to |drafts|
      invariant Checking(store.db, checked, true) == CheckAll(start, run, drafts[..k], reply)
    {
      CheckAllNext(start, run, drafts, k, reply);
      if !PassageKnown(store.db, run, drafts[k]) {
        continue;
      }
      var outcome := verifier.Verify(drafts[k], store.db.statements[drafts[k]].passage, run,
                                     reply(k).judge, reply(k).commit, false, reply(k).delay);
      if outcome == Failed {
        return None;
      }
      checked := checked + 1;
    }
    assert drafts[..|drafts|] == drafts;
    return Some(checked);
  }

  lemma {:induction false} StopsWhere(st: Checking, run: nat, ids: seq<nat>, k: nat, reply: nat -> Reply)
    requires k <= |ids|
    ensures var part := CheckAll(st, run, ids[..k], reply);
      !part.live ==> CheckAll(st, run, ids, reply) == part
  {
    if k == |ids| {
      assert ids[..k] == ids;
    } else {
      var n := |ids| - 1;
      assert ids[..n][..k] == ids[..k];
      StopsWhere(st, run, ids[..n], k, reply);
    }
  }

  /** One turn of the loop; one that does not get through is the last. */
  lemma CheckAllNext(st: Checking, run: nat, ids: seq<nat>, k: nat, reply: nat -> Reply)
    requires k < |ids| && CheckAll(st, run, ids[..k], reply).live
    ensures var next := CheckOne(CheckAll(st, run, ids[..k], reply), run, ids[k], reply(k));
      && CheckAll(st, run, ids[..k + 1], reply) == next
      && (!next.live ==> CheckAll(st, run, ids, reply) == next)
  {
    assert ids[..k + 1][..k] == ids[..k];
    StopsWhere(st, run, ids, k + 1, reply);
  }

  // ------------------------------------------------------------- when it returns

  /** From `a` to `b` some drafts among `ids` were decided and nothing else about the statements changed. */
  ghost predicate DecidedAmong(a: Db, b: Db, ids: seq<nat>) {
    && b.passages == a.passages && b.sources == a.sources && |b.statements| == |a.statements|
    && (forall s | 0 <= s < |a.statements| ::
          || b.statements[s] == a.statements[s]
          || (s in ids && a.statements[s].status == Draft && b.statements[s].status != Draft
              && b.statements[s] == a.statements[s].(status := b.statements[s].status)))
  }

  lemma {:induction false} CheckAllDecides(db: Db, run: nat, ids: seq<nat>, reply: nat -> Reply)
    ensures DecidedAmong(db, CheckAll(Checking(db, 0, true), run, ids, reply).db, ids)
  {
    if ids != [] {
      var n := |ids| - 1;
      CheckAllDecides(db, run, ids[..n], reply);
      assert ids == ids[..n] + [ids[n]];
    }
  }

  /**
   The draft gets through: its passage is not the run's, or it has words, the judge answers if asked, and
   the commit succeeds.
   */
  predicate Passable(db: Db, run: nat, s: nat, reply: Reply) {
    PassageKnown(db, run, s) ==>
      var score := ScoreSupport(db.statements[s].text, db.passages[db.statements[s].passage].text);
      score.Some? && (score.value == Unsupported || reply.judge != JudgeFails) && reply.commit
  }

  lemma {:induction false} DraftsAre(db: Db, run: nat, n: nat)
    ensures forall s | s in DraftsBelow(db, run, n) :: s < n && DraftOf(db, run, s)
    ensures NoDup(DraftsBelow(db, run, n))
  {
    if n > 0 {
      DraftsAre(db, run, n - 1);
      var before := DraftsBelow(db, run, n - 1);
      forall i | 0 <= i < |before| ensures before[i] != n - 1 {
        assert before[i] in before;
      }
    }
  }

  lemma {:induction false} LiveIff(db: Db, run: nat, ids: seq<nat>, reply: nat -> Reply)
    requires NoDup(ids) && forall s | s in ids :: DraftOf(db, run, s)
    ensures CheckAll(Checking(db, 0, true), run, ids, reply).live <==>
              forall k | 0 <= k < |ids| :: Passable(db, run, ids[k], reply(k))
  {
    if ids != [] {
      var n := |ids| - 1;
      LiveIff(db, run, ids[..n], reply);
      CheckAllDecides(db, run, ids[..n], reply);
      assert ids[n] !in ids[..n] && DraftOf(db, run, ids[n]);
      assert forall k | 0 <= k < n :: ids[..n][k] == ids[k];
    }
  }

  /** The stage returns exactly when each chosen draft gets through; one that does not hides all after it. */
  lemma StageReturnsIff(db: Db, run: nat, reply: nat -> Reply)
    ensures StageRun(db, run, reply).1.Some? <==>
              forall k | 0 <= k < |Chosen(db, run)| :: Passable(db, run, Chosen(db, run)[k], reply(k))
  {
    DraftsAre(db, run, |db.statements|);
    LiveIff(db, run, Chosen(db, run), reply);
  }

  // --------------------------------------------------------------- what it decides

  /** The statements of the run before `s` that are drafts. */
  function EarlierDrafts(db: Db, run: nat, s: nat): set<nat> {
    set t: nat | t < s && t < |db.statements| && db.statements[t].run == run && db.statements[t].status == Draft
  }

  lemma {:induction false} DraftsCount(db: Db, run: nat, s: nat)
    ensures |DraftsBelow(db, run, s)| == |EarlierDrafts(db, run, s)|
  {
    if s == 0 {
      assert EarlierDrafts(db, run, 0) == {};
    } else {
      DraftsCount(db, run, s - 1);
      if DraftOf(db, run, s - 1) {
        assert EarlierDrafts(db, run, s) == EarlierDrafts(db, run, s - 1) + {s - 1};
      } else {
        assert EarlierDrafts(db, run, s) == EarlierDrafts(db, run, s - 1);
      }
    }
  }

  predicate Rising(ids: seq<nat>) {
    forall i, j | 0 <= i < j < |ids| :: ids[i] < ids[j]
  }

  lemma {:induction false} DraftsRise(db: Db, run: nat, n: nat)
    ensures Rising(DraftsBelow(db, run, n))
  {
    if n > 0 {
      DraftsRise(db, run, n - 1);
      DraftsAre(db, run, n - 1);
      RisingSnoc(DraftsBelow(db, run, n - 1), n - 1);
    }
  }

  lemma RisingSnoc(ids: seq<nat>, n: nat)
    requires Rising(ids) && forall s | s in ids :: s < n
    ensures Rising(ids + [n])
  {
    assert forall i | 0 <= i < |ids| :: ids[i] in ids;
  }

  /** The stage takes up exactly the drafts of the run that fewer than 25 drafts of it come before, in table order. */
  lemma ChosenIff(db: Db, run: nat, s: nat)
    ensures s in Chosen(db, run) <==>
              && s < |db.statements| && db.statements[s].run == run && db.statements[s].status == Draft
              && |EarlierDrafts(db, run, s)| < 25
    ensures Rising(Chosen(db, run))
  {
    var n := |db.statements|;
    var all := DraftsBelow(db, run, n);
    DraftsAre(db, run, n);
    DraftsRise(db, run, n);
    DraftsCount(db, run, s);
    if s in all {
      DraftsGrow(db, run, s, n);
      var k := |DraftsBelow(db, run, s)|;
      assert all[k] == s;
      forall j | 0 <= j < |all| && all[j] == s ensures j == k {
      }
    } else if DraftOf(db, run, s) {
      DraftsGrow(db, run, s, n);
      assert false;
    }
  }

  /** The passage is not blank and a quarter of the statement's words are in it. */
  predicate Covered(db: Db, s: nat)
    requires s < |db.statements| && db.statements[s].passage < |db.passages|
  {
    var text, source := db.statements[s].text, db.passages[db.statements[s].passage].text;
    !source.blank && 4 * |text.tokens * source.tokens| >= |text.tokens|
  }

  /**
   Each of `ids` with a known passage is decided, verified exactly if its passage covers it and its
   judge supports it; nothing else about the statements changes.
   */
  ghost predicate DecidedAs(db: Db, after: Db, run: nat, ids: seq<nat>, reply: nat -> Reply) {
    && |after.statements| == |db.statements|
    && (forall k | 0 <= k < |ids| && PassageKnown(db, run, ids[k]) ::
          after.statements[ids[k]] == db.statements[ids[k]].(
            status := if Covered(db, ids[k]) && reply(k).judge == Supports then Verified else Quarantined))
    && (forall s | 0 <= s < |db.statements| && (s in ids ==> !PassageKnown(db, run, s)) ::
          after.statements[s] == db.statements[s])
  }

  function KnownAmong(db: Db, run: nat, ids: seq<nat>): set<nat> {
    set k: nat | k < |ids| && PassageKnown(db, run, ids[k])
  }

  lemma {:induction false} DecidesAll(db: Db, run: nat, ids: seq<nat>, reply: nat -> Reply)
    requires NoDup(ids) && forall s | s in ids :: DraftOf(db, run, s)
    requires CheckAll(Checking(db, 0, true), run, ids, reply).live
    ensures var st := CheckAll(Checking(db, 0, true), run, ids, reply);
      DecidedAs(db, st.db, run, ids, reply) && st.count == |KnownAmong(db, run, ids)|
  {
    if ids == [] {
      assert KnownAmong(db, run, ids) == {};
    } else {
      var n := |ids| - 1;
      var front := ids[..n];
      assert ids == front + [ids[n]] && ids[n] !in front;
      DecidesAll(db, run, front, reply);
      CheckAllDecides(db, run, front, reply);
      DecidesOne(db, CheckAll(Checking(db, 0, true), run, front, reply), run, front, ids[n], reply);
    }
  }

  /** One more draft. */
  lemma DecidesOne(db: Db, b: Checking, run: nat, front: seq<nat>, s: nat, reply: nat -> Reply)
    requires DecidedAs(db, b.db, run, front, reply) && DecidedAmong(db, b.db, front) && s !in front
    requires DraftOf(db, run, s) && b.live && b.count == |KnownAmong(db, run, front)|
    requires CheckOne(b, run, s, reply(|front|)).live
    ensures var r := CheckOne(b, run, s, reply(|front|));
      DecidedAs(db, r.db, run, front + [s], reply) && r.count == |KnownAmong(db, run, front + [s])|
  {
    assert b.db.statements[s] == db.statements[s];
    CheckedAs(b, run, s, reply(|front|));
    KnownSnoc(db, run, front, s);
    DecidedSnoc(db, b.db, CheckOne(b, run, s, reply(|front|)).db, run, front, s, reply);
  }

  /** What one draft that gets through comes to. */
  lemma CheckedAs(b: Checking, run: nat, s: nat, rep: Reply)
    requires DraftOf(b.db, run, s) && b.live && CheckOne(b, run, s, rep).live
    ensures var r, known := CheckOne(b, run, s, rep), PassageKnown(b.db, run, s);
      && |r.db.statements| == |b.db.statements|
      && (forall t | 0 <= t < |b.db.statements| && t != s :: r.db.statements[t] == b.db.statements[t])
      && (!known ==> r.db.statements[s] == b.db.statements[s] && r.count == b.count)
      && (known ==>
            && r.count == b.count + 1
            && r.db.statements[s] == b.db.statements[s].(
                 status := if Covered(b.db, s) && rep.judge == Supports then Verified else Quarantined))
  {
    if PassageKnown(b.db, run, s) {
      VerifiedIff(b.db, s, b.db.statements[s].passage, run, rep.judge, rep.commit, false, rep.delay);
    }
  }

  lemma KnownSnoc(db: Db, run: nat, front: seq<nat>, s: nat)
    ensures |KnownAmong(db, run, front + [s])|
         == |KnownAmong(db, run, front)| + (if PassageKnown(db, run, s) then 1 else 0)
  {
    var before, after := KnownAmong(db, run, front), KnownAmong(db, run, front + [s]);
    assert forall k: nat | k < |front| :: (front + [s])[k] == front[k];
    assert after == if PassageKnown(db, run, s) then before + {|front|} else before;
  }

  lemma DecidedSnoc(db: Db, b: Db, r: Db, run: nat, front: seq<nat>, s: nat, reply: nat -> Reply)
    requires DecidedAs(db, b, run, front, reply) && s !in front && s < |db.statements| == |r.statements|
    requires forall t | 0 <= t < |r.statements| && t != s :: r.statements[t] == b.statements[t]
    requires r.statements[s] ==
      if PassageKnown(db, run, s)
      then db.statements[s].(
        status := if Covered(db, s) && reply(|front|).judge == Supports then Verified else Quarantined)
      else db.statements[s]
    ensures DecidedAs(db, r, run, front + [s], reply)
  {
    var ids := front + [s];
    assert ids[|front|] == s;
    forall k: nat | k < |front| ensures ids[k] == front[k] && front[k] in front {
    }
  }

  /**
   The stage decides its chosen drafts in order up to the first that does not get through, at `m`:
   each of them with a known passage comes out verified exactly if its passage covers it and its
   judge supports it, else quarantined; every other statement stays as it was.  The stage returns
   exactly if there is no such first, and then with the number of drafts it decided.
   */
  lemma StageDecides(db: Db, run: nat, reply: nat -> Reply) returns (m: nat)
    ensures var ids := Chosen(db, run);
      var (after, count) := StageRun(db, run, reply);
      && m <= |ids| && DecidedAs(db, after, run, ids[..m], reply)
      && (forall k | 0 <= k < m :: Passable(db, run, ids[k], reply(k)))
      && (m < |ids| ==> !Passable(db, run, ids[m], reply(m)))
      && (count.Some? <==> m == |ids|)
      && (count.Some? ==> count.value == |KnownAmong(db, run, ids)|)
  {
    var ids := Chosen(db, run);
    DraftsAre(db, run, |db.statements|);
    m := FirstStop(db, run, ids, reply);
    LiveIff(db, run, ids, reply);
    StopsAtFirst(db, run, ids, m, reply);
  }

  lemma {:induction false} FirstStop(db: Db, run: nat, ids: seq<nat>, reply: nat -> Reply) returns (m: nat)
    ensures m <= |ids| && forall k | 0 <= k < m :: Passable(db, run, ids[k], reply(k))
    ensures m < |ids| ==> !Passable(db, run, ids[m], reply(m))
  {
    m := 0;
    while m < |ids| && Passable(db, run, ids[m], reply(m))
      invariant m <= |ids| && forall k | 0 <= k < m :: Passable(db, run, ids[k], reply(k))
    {
      m := m + 1;
    }
  }

  lemma StopsAtFirst(db: Db, run: nat, ids: seq<nat>, m: nat, reply: nat -> Reply)
    requires NoDup(ids) && (forall s | s in ids :: DraftOf(db, run, s)) && m <= |ids|
    requires forall k | 0 <= k < m :: Passable(db, run, ids[k], reply(k))
    requires m < |ids| ==> !Passable(db, run, ids[m], reply(m))
    ensures var st := CheckAll(Checking(db, 0, true), run, ids, reply);
      && DecidedAs(db, st.db, run, ids[..m], reply)
      && (m == |ids| ==> st.live && st.count == |KnownAmong(db, run, ids)|)
      && (m < |ids| ==> !st.live)
  {
    var start := Checking(db, 0, true);
    LiveIff(db, run, ids[..m], reply);
    DecidesAll(db, run, ids[..m], reply);
    if m == |ids| {
      assert ids[..m] == ids;
    } else {
      CheckAllDecides(db, run, ids[..m], reply);
      assert ids[m] !in ids[..m] && DraftOf(db, run, ids[m]);
      var b := CheckAll(start, run, ids[..m], reply);
      assert !CheckOne(b, run, ids[m], reply(m)).live && CheckOne(b, run, ids[m], reply(m)).db == b.db;
      CheckAllNext(start, run, ids, m, reply);
    }
  }

  /** No chosen draft of a known passage is without words. */
  ghost predicate AllHaveWords(db: Db, run: nat) {
    forall s | s in Chosen(db, run) && PassageKnown(db, run, s) ::
      !db.statements[s].text.blank && db.statements[s].text.tokens != {}
  }

  /** Some judges and some luck let the stage return exactly when every chosen draft of a known passage has words. */
  lemma StageCanReturnIff(db: Db, run: nat)
    ensures (exists reply :: StageRun(db, run, reply).1.Some?) <==> AllHaveWords(db, run)
  {
    var ids := Chosen(db, run);
    if AllHaveWords(db, run) {
      var best := (_: nat) => Reply(Supports, true, 0);
      forall k | 0 <= k < |ids| ensures Passable(db, run, ids[k], best(k)) {
        assert ids[k] in ids;
      }
      StageReturnsIff(db, run, best);
      assert StageRun(db, run, best).1.Some?;
    }
    if reply: nat -> Reply :| StageRun(db, run, reply).1.Some? {
      StageReturnsIff(db, run, reply);
      forall s | s in ids && PassageKnown(db, run, s)
        ensures !db.statements[s].text.blank && db.statements[s].text.tokens != {}
      {
        var k :| 0 <= k < |ids| && ids[k] == s;
        assert Passable(db, run, ids[k], reply(k));
      }
    }
  }

  // ---------------------------------------------------------- a draft without words

  /** A draft of the run that nobody can decide and that is among the first `MAX_VERIFY`. */
  ghost predicate Stuck(db: Db, run: nat, s: nat) {
    && DraftOf(db, run, s) && PassageKnown(db, run, s)
    && (db.statements[s].text.blank || db.statements[s].text.tokens == {})
    && |DraftsBelow(db, run, s)| < MAX_VERIFY
  }

  lemma {:induction false} DraftsGrow(db: Db, run: nat, s: nat, n: nat)
    requires s < n && DraftOf(db, run, s)
    ensures var all := DraftsBelow(db, run, n);
      |DraftsBelow(db, run, s)| < |all| && all[|DraftsBelow(db, run, s)|] == s
  {
    if s < n - 1 {
      DraftsGrow(db, run, s, n - 1);
    }
  }

  lemma {:induction false} FewerDrafts(a: Db, b: Db, run: nat, ids: seq<nat>, n: nat)
    requires DecidedAmong(a, b, ids)
    ensures |DraftsBelow(b, run, n)| <= |DraftsBelow(a, run, n)|
  {
    if n > 0 {
      FewerDrafts(a, b, run, ids, n - 1);
    }
  }

  /** An attempt on such a run raises, and leaves the draft where it is. */
  lemma StuckAttempt(db: Db, run: nat, s: nat, reply: nat -> Reply)
    requires Stuck(db, run, s)
    ensures StageRun(db, run, reply).1.None? && Stuck(StageRun(db, run, reply).0, run, s)
  {
    var ids, k := Chosen(db, run), |DraftsBelow(db, run, s)|;
    DraftsGrow(db, run, s, |db.statements|);
    assert ids[k] == s && !Passable(db, run, ids[k], reply(k));
    StageReturnsIff(db, run, reply);
    var after := StageRun(db, run, reply).0;
    CheckAllDecides(db, run, ids, reply);
    FewerDrafts(db, after, run, ids, s);
    NeverDecided(db, run, ids, s, reply);
  }

  lemma {:induction false} NeverDecided(db: Db, run: nat, ids: seq<nat>, s: nat, reply: nat -> Reply)
    requires s < |db.statements| && (db.statements[s].text.blank || db.statements[s].text.tokens == {})
    requires db.statements[s].status == Draft
    ensures var after := CheckAll(Checking(db, 0, true), run, ids, reply).db;
      |after.statements| == |db.statements| && after.statements[s] == db.statements[s]
  {
    if ids != [] {
      NeverDecided(db, run, ids[..|ids| - 1], s, reply);
      CheckAllDecides(db, run, ids[..|ids| - 1], reply);
    }
  }

  function Attempts(db: Db, run: nat, replies: seq<nat -> Reply>): Db {
    if replies == [] then db else StageRun(Attempts(db, run, replies[..|replies| - 1]), run, replies[|replies| - 1]).0
  }

  /** No number of resumes, whatever judges and database do, gets the stage past a chosen draft without words. */
  lemma {:induction false} StuckForever(db: Db, run: nat, s: nat, replies: seq<nat -> Reply>, last: nat -> Reply)
    requires Stuck(db, run, s)
    ensures Stuck(Attempts(db, run, replies), run, s)
    ensures StageRun(Attempts(db, run, replies), run, last).1.None?
  {
    if replies != [] {
      StuckForever(db, run, s, replies[..|replies| - 1], replies[|replies| - 1]);
      StuckAttempt(Attempts(db, run, replies[..|replies| - 1]), run, s, replies[|replies| - 1]);
    }
    StuckAttempt(Attempts(db, run, replies), run, s, last);
  }
}
