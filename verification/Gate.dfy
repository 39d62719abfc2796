/**
 How statements enter the knowledge base: `app/services/extractor.py` writes drafts,
 `app/services/verifier.py` decides them with `app/services/support_matrix.py` and a judge.
 */
module Gate {
  import opened Prelude
  import opened Knowledge

  // ---------------------------------------------------------------- support matrix

  /** `score_support`: `None` is the error raised for a statement without words. */
  function ScoreSupport(statement: Prose, passage: Prose): Option<Score> {
    if statement.blank || statement.tokens == {} then None
    else if passage.blank then Some(Unsupported)
    else
      var shared, all := |statement.tokens * passage.tokens|, |statement.tokens|;
      if 2 * shared >= all then Some(Full)
      else if 4 * shared >= all then Some(Partial)
      else Some(Unsupported)
  }

  function Rank(score: Score): nat {
    match score
    case Unsupported => 0
    case Partial => 1
    case Full => 2
  }

  /** A passage with more words never scores a statement lower; one that has all its words scores it full. */
  lemma ScoreMonotone(statement: Prose, p: Prose, q: Prose)
    requires p.tokens <= q.tokens && !q.blank
    requires !statement.blank && statement.tokens != {}
    ensures Rank(ScoreSupport(statement, p).value) <= Rank(ScoreSupport(statement, q).value)
    ensures statement.tokens <= q.tokens ==> ScoreSupport(statement, q) == Some(Full)
  {
    var inP, inQ := statement.tokens * p.tokens, statement.tokens * q.tokens;
    assert inP <= inQ;
    SubsetSize(inP, inQ);
    if statement.tokens <= q.tokens {
      assert inQ == statement.tokens;
    }
  }

  lemma SubsetSize<T>(a: set<T>, b: set<T>)
    requires a <= b
    ensures |a| <= |b|
  {
    assert b == a + (b - a);
  }

  // --------------------------------------------------------------------- extraction

  /** The reply of the extraction model: `None` when the call fails or never validates. */
  type Extraction = Option<seq<Prose>>

  function Drafts(passage: nat, run: nat, items: seq<Prose>): seq<Statement> {
    seq(|items|, i requires 0 <= i < |items| => Statement(passage, run, items[i], Draft))
  }

  function ExtractLinks(first: nat, passage: nat, run: nat, n: nat, now: nat): seq<Link> {
    seq(n, i requires 0 <= i < n => Link(first + i, passage, run, Unsupported, Extract, now))
  }

  /** `Extractor.extract`: drafts and one link each in one commit; `None` is a raised error. */
  function ExtractOne(db: Db, passage: nat, run: nat, reply: Extraction, commit: bool,
                      delay: nat): (Db, Option<seq<nat>>)
    requires passage < |db.passages|
  {
    if db.passages[passage].text.blank || reply.None? then (db, None)
    else if reply.value == [] then (db, Some([]))
    else if !commit then (db, None)
    else
      var n, first, now := |reply.value|, |db.statements|, db.clock + delay;
      (db.(statements := db.statements + Drafts(passage, run, reply.value),
           links := db.links + ExtractLinks(first, passage, run, n, now),
           clock := now),
       Some(seq(n, i requires 0 <= i < n => first + i)))
  }

  class Extractor {
    const store: Store

    constructor (store: Store)
      ensures this.store == store
    {
      this.store := store;
    }

    method Extract(passage: nat, run: nat, reply: Extraction, commit: bool, delay: nat) returns (rows: Option<seq<nat>>)
      requires passage < |store.db.passages|
      modifies store
      ensures (store.db, rows) == ExtractOne(old(store.db), passage, run, reply, commit, delay)
    {
      var db := store.db;
      if db.passages[passage].text.blank || reply.None? {
        return None;
      }
      var items := reply.value;
      if items == [] {
        return Some([]);
      }
      var statements: seq<Statement> := [];
      var ids: seq<nat> := [];
      for i := 0 to |items|
        invariant statements == Drafts(passage, run, items[..i])
        invariant ids == seq(i, j requires 0 <= j < i => |db.statements| + j)
      {
        statements := statements + [Statement(passage, run, items[i], Draft)];
        ids := ids + [|db.statements| + i];
      }
      var now := db.clock + delay;
      var links: seq<Link> := [];
      for i := 0 to |ids|
        invariant links == ExtractLinks(|db.statements|, passage, run, i, now)
      {
        links := links + [Link(ids[i], passage, run, Unsupported, Method.Extract, now)];
      }
      if !commit {
        return None;
      }
      assert items[..|items|] == items;
      store.db := db.(statements := db.statements + statements, links := db.links + links, clock := now);
      return Some(ids);
    }
  }

  // ------------------------------------------------------------------- verification

  datatype Judge = JudgeFails | Supports | Denies
  datatype Outcome = Skipped(status: Status) | Decided(decision: Status, score: Score) | Failed

  function Decide(score: Score, judge: Judge): Status {
    if score != Unsupported && judge == Supports then Verified else Quarantined
  }

  /**
   `Verifier.verify` on the current row of a statement: new status, one more link and one more
   audit row in one commit, or nothing.  The judge is asked only if the matrix finds support.
   */
  function VerifyOne(db: Db, s: nat, passage: nat, run: nat, judge: Judge, commit: bool, force: bool,
                     delay: nat): (Db, Outcome)
    requires s < |db.statements| && passage < |db.passages|
  {
    var row := db.statements[s];
    if row.status != Draft && !force then (db, Skipped(row.status))
    else
      var score := ScoreSupport(row.text, db.passages[passage].text);
      if score.None? || (score.value != Unsupported && judge == JudgeFails) || !commit then (db, Failed)
      else
        var decision, now := Decide(score.value, judge), db.clock + delay;
        (db.(statements := db.statements[s := row.(status := decision)],
             links := db.links + [Link(s, passage, run, score.value, Verify, now)],
             audits := db.audits + [Verdict(s, decision, score.value, score.value != Unsupported && judge == Supports)],
             clock := now),
         Decided(decision, score.value))
  }

  class Verifier {
    const store: Store
    var verifiedCount: nat
    var processedCount: nat

    constructor (store: Store)
      ensures this.store == store && verifiedCount == processedCount == 0
    {
      this.store := store;
      verifiedCount, processedCount := 0, 0;
    }

    method Verify(s: nat, passage: nat, run: nat, judge: Judge, commit: bool, force: bool, delay: nat)
      returns (outcome: Outcome)
      requires s < |store.db.statements| && passage < |store.db.passages|
      modifies this, store
      ensures (store.db, outcome) == VerifyOne(old(store.db), s, passage, run, judge, commit, force, delay)
      ensures processedCount == old(processedCount) + (if outcome.Decided? then 1 else 0)
      ensures verifiedCount == old(verifiedCount) + (if outcome.Decided? && outcome.decision == Verified then 1 else 0)
    {
      var db := store.db;
      var row := db.statements[s];
      if row.status != Draft && !force {
        return Skipped(row.status);
      }
      var score := ScoreSupport(row.text, db.passages[passage].text);
      if score.None? {
        return Failed;
      }
      var supported := false;
      var decision := Quarantined;
      if score.value in {Full, Partial} {
        if judge == JudgeFails {
          return Failed;
        }
        supported := judge == Supports;
        decision := if supported then Verified else Quarantined;
      }
      if !commit {
        return Failed;
      }
      var now := db.clock + delay;
      store.db := db.(
        statements := db.statements[s := row.(status := decision)],
        links := db.links + [Link(s, passage, run, score.value, Method.Verify, now)],
        audits := db.audits + [Verdict(s, decision, score.value, supported)],
        clock := now);
      processedCount := processedCount + 1;
      if decision == Verified {
        verifiedCount := verifiedCount + 1;
      }
      return Decided(decision, score.value);
    }
  }

  // -------------------------------------------------------------- the gate invariant

  /** The links of statement `s` made by `how`, oldest first. */
  function LinksOf(links: seq<Link>, s: nat, how: Method): seq<Link> {
    if links == [] then []
    else
      var n := |links| - 1;
      LinksOf(links[..n], s, how) + (if links[n].statement == s && links[n].how == how then [links[n]] else [])
  }

  /** The verifier's audit rows on statement `s`, oldest first. */
  function VerdictsOn(audits: seq<Audit>, s: nat): seq<Audit> {
    if audits == [] then []
    else
      var n := |audits| - 1;
      VerdictsOn(audits[..n], s) + (if audits[n].Verdict? && audits[n].statement == s then [audits[n]] else [])
  }

  function Last<T>(s: seq<T>): T
    requires s != []
  {
    s[|s| - 1]
  }

  /**
   One verify link per verdict; drafts have none; the last verdict is the status, and `verified` rests on
   support and a judge.
   */
  ghost predicate GateRow(db: Db, s: nat)
    requires s < |db.statements|
  {
    var links, verdicts := LinksOf(db.links, s, Verify), VerdictsOn(db.audits, s);
    && |links| == |verdicts|
    && (db.statements[s].status == Draft <==> verdicts == [])
    && (verdicts != [] ==>
          && Last(verdicts).Verdict? && Last(verdicts).decision == db.statements[s].status
          && Last(verdicts).score == Last(links).score)
    && (db.statements[s].status == Verified ==> Last(links).score != Unsupported && Last(verdicts).judge)
  }

  /** One extract link, from the statement's own passage, scored by nobody. */
  ghost predicate ExtractRow(db: Db, s: nat)
    requires s < |db.statements|
  {
    var links := LinksOf(db.links, s, Extract);
    |links| == 1 && links[0].passage == db.statements[s].passage && links[0].run == db.statements[s].run
      && links[0].score == Unsupported
  }

  ghost predicate GateOk(db: Db) {
    && (forall l | l in db.links :: l.statement < |db.statements|)
    && (forall a | a in db.audits && a.Verdict? :: a.statement < |db.statements|)
    && (forall s | 0 <= s < |db.statements| :: GateRow(db, s) && ExtractRow(db, s))
  }

  lemma LinksSnoc(links: seq<Link>, link: Link, s: nat, how: Method)
    ensures LinksOf(links + [link], s, how)
         == LinksOf(links, s, how) + (if link.statement == s && link.how == how then [link] else [])
  {
    assert (links + [link])[..|links|] == links;
  }

  lemma VerdictsSnoc(audits: seq<Audit>, audit: Audit, s: nat)
    ensures VerdictsOn(audits + [audit], s)
         == VerdictsOn(audits, s) + (if audit.Verdict? && audit.statement == s then [audit] else [])
  {
    assert (audits + [audit])[..|audits|] == audits;
  }

  /** The tables after a decision that was committed. */
  function AfterDecision(db: Db, s: nat, link: Link, decision: Status, judge: bool): Db
    requires s < |db.statements|
  {
    db.(statements := db.statements[s := db.statements[s].(status := decision)],
        links := db.links + [link],
        audits := db.audits + [Verdict(s, decision, link.score, judge)],
        clock := link.at)
  }

  lemma DecidedRow(db: Db, s: nat, link: Link, decision: Status, judge: bool, t: nat)
    requires s < |db.statements| && GateOk(db) && t < |db.statements|
    requires link.statement == s && link.how == Verify && decision != Draft
    requires decision == Verified ==> link.score != Unsupported && judge
    ensures GateRow(AfterDecision(db, s, link, decision, judge), t)
         && ExtractRow(AfterDecision(db, s, link, decision, judge), t)
  {
    LinksSnoc(db.links, link, t, Verify);
    LinksSnoc(db.links, link, t, Extract);
    VerdictsSnoc(db.audits, Verdict(s, decision, link.score, judge), t);
    assert GateRow(db, t) && ExtractRow(db, t);
  }

  /** Every verification, forced or not, successful or not, keeps the gate and the extract links. */
  lemma VerifyKeepsGate(db: Db, s: nat, passage: nat, run: nat, judge: Judge, commit: bool, force: bool, delay: nat)
    requires s < |db.statements| && passage < |db.passages| && GateOk(db)
    ensures var (db', outcome) := VerifyOne(db, s, passage, run, judge, commit, force, delay);
      && GateOk(db')
      && (forall t :: LinksOf(db'.links, t, Extract) == LinksOf(db.links, t, Extract))
      && db.links <= db'.links && db.audits <= db'.audits
      && |db'.statements| == |db.statements|
      && (forall t | 0 <= t < |db.statements| && t != s :: db'.statements[t] == db.statements[t])
      && db'.statements[s] == db.statements[s].(status := db'.statements[s].status)
      && (!outcome.Decided? ==> db' == db)
      && (outcome.Decided? ==>
            && |db'.links| == |db.links| + 1 && |db'.audits| == |db.audits| + 1
            && var link := Last(db'.links);
            && link.statement == s && link.passage == passage && link.run == run && link.how == Verify
            && link.score == outcome.score && link.at == db'.clock == db.clock + delay
            && Last(db'.audits) == Verdict(s, outcome.decision, outcome.score, outcome.decision == Verified))
  {
    var (db', outcome) := VerifyOne(db, s, passage, run, judge, commit, force, delay);
    if outcome.Decided? {
      var link := Link(s, passage, run, outcome.score, Verify, db.clock + delay);
      var supported := outcome.score != Unsupported && judge == Supports;
      assert db' == AfterDecision(db, s, link, outcome.decision, supported);
      forall t ensures LinksOf(db'.links, t, Extract) == LinksOf(db.links, t, Extract) {
        LinksSnoc(db.links, link, t, Extract);
      }
      forall t | 0 <= t < |db'.statements| ensures GateRow(db', t) && ExtractRow(db', t) {
        DecidedRow(db, s, link, outcome.decision, supported, t);
      }
    }
  }

  /**
   A statement comes out verified exactly when it was open to a decision, a quarter of its words
   are in the passage, the judge supports it, and the commit succeeds; short of that quarter no
   judge matters.
   */
  lemma VerifiedIff(db: Db, s: nat, passage: nat, run: nat, judge: Judge, commit: bool, force: bool, delay: nat)
    requires s < |db.statements| && passage < |db.passages|
    ensures var (db', outcome) := VerifyOne(db, s, passage, run, judge, commit, force, delay);
      var text, source := db.statements[s].text, db.passages[passage].text;
      var covered := !source.blank && 4 * |text.tokens * source.tokens| >= |text.tokens|;
      var isOpen := (db.statements[s].status == Draft || force) && !text.blank && text.tokens != {} && commit;
      && (outcome == Decided(Verified, Full) || outcome == Decided(Verified, Partial)
          <==> isOpen && covered && judge == Supports)
      && (outcome.Decided? <==> isOpen && (covered ==> judge != JudgeFails))
      && (outcome.Decided? ==> db'.statements[s].status == outcome.decision)
      && (isOpen && !covered ==> outcome == Decided(Quarantined, Unsupported))
      && (outcome.Decided? ==>
            (outcome.score == Full <==> !source.blank && 2 * |text.tokens * source.tokens| >= |text.tokens|))
      && (outcome.Skipped? <==> db.statements[s].status != Draft && !force)
      && (outcome.Skipped? ==> outcome.status == db.statements[s].status)
  {
    var shared := db.statements[s].text.tokens * db.passages[passage].text.tokens;
    assert 2 * |shared| >= |db.statements[s].text.tokens| ==> 4 * |shared| >= |db.statements[s].text.tokens|;
  }

  lemma {:induction false} NoLinksYet(links: seq<Link>, s: nat, how: Method)
    requires forall l | l in links :: l.statement != s
    ensures LinksOf(links, s, how) == []
  {
    if links != [] {
      NoLinksYet(links[..|links| - 1], s, how);
    }
  }

  lemma {:induction false} NoVerdictsYet(audits: seq<Audit>, s: nat)
    requires forall a | a in audits && a.Verdict? :: a.statement != s
    ensures VerdictsOn(audits, s) == []
  {
    if audits != [] {
      NoVerdictsYet(audits[..|audits| - 1], s);
    }
  }

  lemma LinksJoin(links: seq<Link>, first: nat, passage: nat, run: nat, n: nat, now: nat)
    requires n > 0
    ensures links + ExtractLinks(first, passage, run, n, now)
         == links + ExtractLinks(first, passage, run, n - 1, now)
            + [Link(first + n - 1, passage, run, Unsupported, Extract, now)]
  {
  }

  lemma NothingAdded(links: seq<Link>)
    ensures links + [] == links
  {
  }

  /** The links an extraction adds, for any statement. */
  lemma {:induction false} ExtractedLinks(links: seq<Link>, first: nat, passage: nat, run: nat, n: nat, now: nat,
                                          s: nat)
    ensures var all := links + ExtractLinks(first, passage, run, n, now);
      && LinksOf(all, s, Verify) == LinksOf(links, s, Verify)
      && LinksOf(all, s, Extract) == LinksOf(links, s, Extract)
           + (if first <= s < first + n then [Link(s, passage, run, Unsupported, Extract, now)] else [])
  {
    if n == 0 {
      assert links + ExtractLinks(first, passage, run, 0, now) == links;
    } else {
      ExtractedLinks(links, first, passage, run, n - 1, now, s);
      var before := links + ExtractLinks(first, passage, run, n - 1, now);
      var link := Link(first + n - 1, passage, run, Unsupported, Extract, now);
      LinksJoin(links, first, passage, run, n, now);
      LinksSnoc(before, link, s, Verify);
      LinksSnoc(before, link, s, Extract);
      NothingAdded(LinksOf(before, s, Verify));
      if s == first + n - 1 {
        NothingAdded(LinksOf(links, s, Extract));
      } else {
        NothingAdded(LinksOf(before, s, Extract));
      }
    }
  }

  /** Any row after an extraction that wrote `reply.value`. */
  lemma ExtractedRow(db: Db, passage: nat, run: nat, reply: Extraction, delay: nat, s: nat)
    requires passage < |db.passages| && !db.passages[passage].text.blank && reply.Some? && reply.value != []
          && GateOk(db)
    requires s < |db.statements| + |reply.value|
    ensures var db' := ExtractOne(db, passage, run, reply, true, delay).0; GateRow(db', s) && ExtractRow(db', s)
  {
    ExtractedLinks(db.links, |db.statements|, passage, run, |reply.value|, db.clock + delay, s);
    if s < |db.statements| {
      assert GateRow(db, s) && ExtractRow(db, s);
    } else {
      NoLinksYet(db.links, s, Verify);
      NoLinksYet(db.links, s, Extract);
      NoVerdictsYet(db.audits, s);
    }
  }

  /** An extraction writes drafts only, each with its one extract link, or nothing at all. */
  lemma ExtractKeepsGate(db: Db, passage: nat, run: nat, reply: Extraction, commit: bool, delay: nat)
    requires passage < |db.passages| && GateOk(db)
    ensures var (db', rows) := ExtractOne(db, passage, run, reply, commit, delay);
      && GateOk(db') && db.statements <= db'.statements && db'.audits == db.audits
      && (forall s | |db.statements| <= s < |db'.statements| ::
            db'.statements[s].status == Draft && db'.statements[s].passage == passage && db'.statements[s].run == run)
      && (rows.None? ==> db' == db)
      && (rows.None? <==> db.passages[passage].text.blank || reply.None? || (reply.value != [] && !commit))
      && (rows.Some? ==>
            && reply.Some? && |rows.value| == |reply.value|
            && |db'.statements| == |db.statements| + |reply.value| && |db'.links| == |db.links| + |reply.value|
            && forall i | 0 <= i < |reply.value| ::
                 rows.value[i] == |db.statements| + i && db'.statements[rows.value[i]].text == reply.value[i])
  {
    var (db', rows) := ExtractOne(db, passage, run, reply, commit, delay);
    if db' != db {
      forall l | l in db'.links ensures l.statement < |db'.statements| {
        if l !in db.links {
          assert l in ExtractLinks(|db.statements|, passage, run, |reply.value|, db.clock + delay);
        }
      }
      forall s | 0 <= s < |db'.statements| ensures GateRow(db', s) && ExtractRow(db', s) {
        ExtractedRow(db, passage, run, reply, delay, s);
      }
    }
  }
}
