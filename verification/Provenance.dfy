/**
 The life of the knowledge base: what collecting, storing, extracting, verifying, detecting,
 finding and concluding keep together, over every history, for any number of runs.
 */
module Provenance {
  import opened Prelude
  import opened Knowledge
  import opened Gate
  import Overlap
  import Detector
  import Findings
  import Report

  /**
   One service call.  `pick` is whichever verified statements of the run the capped query of a
   stage returns; `words` is the detector's own tokenization.
   */
  datatype Event =
    | Collected(run: nat, uri: string)
    | Chunked(source: nat, texts: seq<Prose>)
    | Extracted(passage: nat, items: Extraction, commit: bool, delay: nat)
    | Checked(s: nat, judge: Judge, commit: bool, force: bool, delay: nat)
    | Detected(run: nat, pick: nat -> bool, words: nat -> set<string>, pairs: nat -> Detector.PairReply)
    | Found(run: nat, domain: string -> string, commits: nat)
    | Synthesized(run: nat, pick: nat -> bool, conflicts: seq<nat>, naming: Report.Naming,
                  drafts: Option<seq<Report.Proposal>>, commit: bool)

  /** The picked verified statements of a run among the first `n`. */
  function Picked(db: Db, run: nat, pick: nat -> bool, n: nat): seq<nat>
    requires n <= |db.statements|
  {
    if n == 0 then []
    else
      var row := db.statements[n - 1];
      Picked(db, run, pick, n - 1) + (if row.run == run && row.status == Verified && pick(n - 1) then [n - 1] else [])
  }

  function ClaimsOf(ids: seq<nat>, words: nat -> set<string>): seq<Overlap.Claim> {
    seq(|ids|, i requires 0 <= i < |ids| => Overlap.Claim(ids[i], words(ids[i]), true))
  }

  function PassageRows(source: nat, texts: seq<Prose>): seq<Passage> {
    seq(|texts|, i requires 0 <= i < |texts| => Passage(source, texts[i]))
  }

  /** Calls on rows that do not exist are not made. */
  function Step(db: Db, e: Event): Db {
    match e
    case Collected(run, uri) => db.(sources := db.sources + [Source(run, uri)])
    case Chunked(source, texts) =>
      if source < |db.sources| then db.(passages := db.passages + PassageRows(source, texts)) else db
    case Extracted(passage, items, commit, delay) =>
      if passage < |db.passages| && db.passages[passage].source < |db.sources|
      then ExtractOne(db, passage, db.sources[db.passages[passage].source].run, items, commit, delay).0 else db
    case Checked(s, judge, commit, force, delay) =>
      if s < |db.statements| && db.statements[s].passage < |db.passages|
      then VerifyOne(db, s, db.statements[s].passage, db.statements[s].run, judge, commit, force, delay).0 else db
    case Detected(run, pick, words, pairs) =>
      Detector.DetectRun(db, ClaimsOf(Picked(db, run, pick, |db.statements|), words), run, pairs).0
    case Found(run, domain, commits) => Findings.FindRun(db, run, domain, commits).0
    case Synthesized(run, pick, conflicts, naming, drafts, commit) =>
      Report.GenerateRun(db, Report.Inputs(run, Picked(db, run, pick, |db.statements|), conflicts, naming), drafts,
                         commit).0
  }

  function History(events: seq<Event>): Db {
    if events == [] then EMPTY else Step(History(events[..|events| - 1]), events[|events| - 1])
  }

  // ----------------------------------------------------------------------- invariant

  /** Every passage has its source, and every statement a passage of a source of its own run. */
  ghost predicate Anchored(db: Db) {
    && (forall p | p in db.passages :: p.source < |db.sources|)
    && (forall r | r in db.statements ::
          r.passage < |db.passages| && db.sources[db.passages[r.passage].source].run == r.run)
  }

  /** Every link joins a statement to its own passage, within its run. */
  ghost predicate LinksFit(db: Db) {
    forall l | l in db.links ::
      l.statement < |db.statements| && l.passage == db.statements[l.statement].passage
        && l.run == db.statements[l.statement].run
  }

  /** Findings, contradictions and conclusions refer to statements of their own run. */
  ghost predicate FindingsFit(db: Db) {
    && (forall x | x in db.findingStatements ::
          x.0 < |db.findings| && x.1 < |db.statements| && db.findings[x.0].run == db.statements[x.1].run)
    && (forall f | f in db.findings :: f.tier != T3)
  }

  ghost predicate ConflictsFit(db: Db) {
    forall c | c in db.contradictions ::
      && c.a < |db.statements| && c.b < |db.statements| && c.a != c.b
      && db.statements[c.a].run == c.run == db.statements[c.b].run
  }

  ghost predicate EvidenceFits(db: Db) {
    forall x | x in db.conclusionEvidence ::
      x.0 < |db.conclusions| && x.1 < |db.statements| && db.conclusions[x.0].run == db.statements[x.1].run
  }

  ghost predicate Rooted(db: Db) {
    Anchored(db) && LinksFit(db) && FindingsFit(db) && ConflictsFit(db) && EvidenceFits(db)
  }

  ghost predicate Sound(db: Db) {
    Rooted(db) && GateOk(db) && Detector.ConflictsOk(db) && Report.ConclusionsOk(db) && Report.TimeOrdered(db)
  }

  lemma {:induction false} PickedAre(db: Db, run: nat, pick: nat -> bool, n: nat)
    requires n <= |db.statements|
    ensures forall s | s in Picked(db, run, pick, n) ::
              s < n && db.statements[s].run == run && db.statements[s].status == Verified
    ensures NoDup(Picked(db, run, pick, n))
  {
    if n > 0 {
      PickedAre(db, run, pick, n - 1);
      var before := Picked(db, run, pick, n - 1);
      forall i | 0 <= i < |before| ensures before[i] != n - 1 {
        assert before[i] in before;
      }
    }
  }

  // ------------------------------------------------------- audit rows of other kinds

  lemma {:induction false} VerdictsSkip(audits: seq<Audit>, more: seq<Audit>, s: nat)
    requires forall a | a in more :: !a.Verdict?
    ensures VerdictsOn(audits + more, s) == VerdictsOn(audits, s)
  {
    if more == [] {
      assert audits + more == audits;
    } else {
      var n := |more| - 1;
      VerdictsSkip(audits, more[..n], s);
      assert audits + more == (audits + more[..n]) + [more[n]];
      VerdictsSnoc(audits + more[..n], more[n], s);
    }
  }

  lemma {:induction false} ConflictsSkip(audits: seq<Audit>, more: seq<Audit>, row: nat)
    requires forall a | a in more :: !a.Conflict?
    ensures Detector.NotesOn(audits + more, row) == Detector.NotesOn(audits, row)
  {
    if more == [] {
      assert audits + more == audits;
    } else {
      var n := |more| - 1;
      ConflictsSkip(audits, more[..n], row);
      assert audits + more == (audits + more[..n]) + [more[n]];
      Detector.NotesSnoc(audits + more[..n], more[n], row);
    }
  }

  lemma {:induction false} ConclusionsSkip(audits: seq<Audit>, more: seq<Audit>, c: nat)
    requires forall a | a in more :: !a.Concluded?
    ensures Report.NotesFor(audits + more, c) == Report.NotesFor(audits, c)
  {
    if more == [] {
      assert audits + more == audits;
    } else {
      var n := |more| - 1;
      ConclusionsSkip(audits, more[..n], c);
      assert audits + more == (audits + more[..n]) + [more[n]];
      Report.NotesSnoc(audits + more[..n], more[n], c);
    }
  }

  /** The gate looks at statements, links and verdicts only. */
  lemma GateKept(db: Db, after: Db, more: seq<Audit>)
    requires GateOk(db) && after.statements == db.statements && after.links == db.links
    requires after.audits == db.audits + more && forall a | a in more :: !a.Verdict?
    ensures GateOk(after)
  {
    forall s | 0 <= s < |db.statements| ensures GateRow(after, s) && ExtractRow(after, s) {
      VerdictsSkip(db.audits, more, s);
      assert GateRow(db, s) && ExtractRow(db, s);
    }
  }

  lemma ConflictsKept(db: Db, after: Db, more: seq<Audit>)
    requires Detector.ConflictsOk(db) && after.contradictions == db.contradictions
    requires after.audits == db.audits + more && forall a | a in more :: !a.Conflict?
    ensures Detector.ConflictsOk(after)
  {
    forall i | 0 <= i < |db.contradictions| ensures Detector.NotesOn(after.audits, i) == 1 {
      ConflictsSkip(db.audits, more, i);
    }
  }

  lemma ConclusionsKept(db: Db, after: Db, more: seq<Audit>)
    requires Report.ConclusionsOk(db) && |after.statements| >= |db.statements|
    requires after.conclusions == db.conclusions && after.conclusionEvidence == db.conclusionEvidence
    requires after.audits == db.audits + more && forall a | a in more :: !a.Concluded?
    ensures Report.ConclusionsOk(after)
  {
    forall c | 0 <= c < |db.conclusions| ensures Report.ConclusionRow(after, c) {
      ConclusionsSkip(db.audits, more, c);
      assert Report.ConclusionRow(db, c);
    }
  }

  // ------------------------------------------------------------------ event by event

  lemma CollectedKeeps(db: Db, run: nat, uri: string)
    requires Sound(db)
    ensures Sound(Step(db, Collected(run, uri)))
  {
    var after := Step(db, Collected(run, uri));
    GateKept(db, after, []);
    ConflictsKept(db, after, []);
    ConclusionsKept(db, after, []);
  }

  lemma ChunkedKeeps(db: Db, source: nat, texts: seq<Prose>)
    requires Sound(db)
    ensures Sound(Step(db, Chunked(source, texts)))
  {
    var after := Step(db, Chunked(source, texts));
    GateKept(db, after, []);
    ConflictsKept(db, after, []);
    ConclusionsKept(db, after, []);
  }

  lemma ExtractedKeeps(db: Db, e: Event)
    requires Sound(db) && e.Extracted?
    ensures Sound(Step(db, e))
  {
    var after := Step(db, e);
    if after != db {
      var run := db.sources[db.passages[e.passage].source].run;
      ExtractKeepsGate(db, e.passage, run, e.items, e.commit, e.delay);
      ConflictsKept(db, after, []);
      ConclusionsKept(db, after, []);
      var n, now := |e.items.value|, db.clock + e.delay;
      assert after.statements == db.statements + Drafts(e.passage, run, e.items.value);
      assert after.links == db.links + ExtractLinks(|db.statements|, e.passage, run, n, now);
      forall l | l in ExtractLinks(|db.statements|, e.passage, run, n, now)
        ensures |db.statements| <= l.statement < |after.statements| && l.passage == e.passage && l.run == run
             && l.at == now
      {
      }
    }
  }

  lemma CheckedRooted(db: Db, e: Event)
    requires Rooted(db) && Report.TimeOrdered(db) && e.Checked?
    ensures Rooted(Step(db, e)) && Report.TimeOrdered(Step(db, e))
  {
    if Step(db, e) != db {
      var row := db.statements[e.s];
      var score := ScoreSupport(row.text, db.passages[row.passage].text).value;
      DecisionRooted(db, e.s, Link(e.s, row.passage, row.run, score, Verify, db.clock + e.delay),
                     Decide(score, e.judge), score != Unsupported && e.judge == Supports);
    }
  }

  lemma DecisionRooted(db: Db, s: nat, link: Link, decision: Status, judge: bool)
    requires Rooted(db) && Report.TimeOrdered(db) && s < |db.statements| && link.at >= db.clock
    requires link.statement == s && link.passage == db.statements[s].passage && link.run == db.statements[s].run
    ensures Rooted(AfterDecision(db, s, link, decision, judge))
         && Report.TimeOrdered(AfterDecision(db, s, link, decision, judge))
  {
  }

  lemma CheckedKeeps(db: Db, e: Event)
    requires Sound(db) && e.Checked?
    ensures Sound(Step(db, e))
  {
    var after := Step(db, e);
    CheckedRooted(db, e);
    if after != db {
      VerifyKeepsGate(db, e.s, db.statements[e.s].passage, db.statements[e.s].run, e.judge, e.commit, e.force, e.delay);
      var audit := after.audits[|db.audits|];
      assert after.audits == db.audits + [audit];
      ConflictsKept(db, after, [audit]);
      ConclusionsKept(db, after, [audit]);
    }
  }

  lemma DetectedKeeps(db: Db, e: Event)
    requires Sound(db) && e.Detected?
    ensures Sound(Step(db, e))
    ensures forall c | c in Step(db, e).contradictions && c !in db.contradictions ::
              && c.a < |db.statements| && c.b < |db.statements|
              && db.statements[c.a].status == Verified && db.statements[c.b].status == Verified
  {
    var after := Step(db, e);
    var ids := Picked(db, e.run, e.pick, |db.statements|);
    var claims := ClaimsOf(ids, e.words);
    PickedAre(db, e.run, e.pick, |db.statements|);
    Detector.DetectKeeps(db, claims, e.run, e.pairs);
    Detector.DetectAllAudits(db, Detector.Capped(Overlap.CandidatesOf(claims)), e.run, e.pairs);
    var more := after.audits[|db.audits|..];
    assert after.audits == db.audits + more;
    GateKept(db, after, more);
    ConclusionsKept(db, after, more);
    forall c | c in after.contradictions && c !in db.contradictions
      ensures c.run == e.run && c.a in ids && c.b in ids && c.a != c.b
    {
      var i :| 0 <= i < |after.contradictions| && after.contradictions[i] == c;
      assert i >= |db.contradictions|;
      PairFromIds(c, ids, e.words);
    }
  }

  lemma PairFromIds(c: Contradiction, ids: seq<nat>, words: nat -> set<string>)
    requires NoDup(ids) && Detector.OfPair(c, Overlap.CandidatesOf(ClaimsOf(ids, words)))
    ensures c.a in ids && c.b in ids && c.a != c.b
  {
    var claims := ClaimsOf(ids, words);
    var pairs := Overlap.CandidatesOf(claims);
    Overlap.EachPairOnce(claims);
    var k :| 0 <= k < |pairs| && c.a == pairs[k].0.id && c.b == pairs[k].1.id;
    assert pairs[k] in pairs;
    forall x | x in claims ensures x.id in ids {
    }
  }

  lemma FoundKeeps(db: Db, e: Event)
    requires Sound(db) && e.Found?
    ensures Sound(Step(db, e))
  {
    var after := Step(db, e);
    FoundPart(db, e.run, e.domain, e.commits);
    GateKept(db, after, []);
    ConflictsKept(db, after, []);
    ConclusionsKept(db, after, []);
  }

  /** Also a find stage that dies between two findings leaves only findings of verified, supported statements. */
  lemma FoundPart(db: Db, run: nat, domain: string -> string, commits: nat)
    requires Sound(db)
    ensures var after := Findings.FindRun(db, run, domain, commits).0;
      && after == db.(findings := after.findings, findingStatements := after.findingStatements)
      && FindingsFit(after)
      && (forall x | x in after.findingStatements && x !in db.findingStatements ::
            x.1 < |db.statements| && db.statements[x.1].status == Verified)
  {
    var ids := Findings.EligibleBelow(db, run, |db.statements|);
    var domains := Dedupe(Findings.DomainsFor(db, ids, domain));
    Findings.EligiblesAre(db, run, |db.statements|);
    DedupeKeepsFirst(Findings.DomainsFor(db, ids, domain));
    FindAllFits(db, run, ids, domains, domain, commits);
  }

  lemma {:induction false} FindAllFits(db: Db, run: nat, ids: seq<nat>, domains: seq<string>, domain: string -> string,
                                       commits: nat)
    requires Sound(db)
    requires forall s | s in ids ::
               s < |db.statements| && db.statements[s].run == run && db.statements[s].status == Verified
    requires forall d | d in domains :: d in Findings.DomainsFor(db, ids, domain)
    ensures var after := Findings.FindAll(Findings.Grouping(db, commits, true), run, ids, domains, domain).db;
      && after == db.(findings := after.findings, findingStatements := after.findingStatements)
      && FindingsFit(after)
      && (forall x | x in after.findingStatements && x !in db.findingStatements :: x.1 in ids)
  {
    if domains != [] {
      var n := |domains| - 1;
      FindAllFits(db, run, ids, domains[..n], domain, commits);
      var b := Findings.FindAll(Findings.Grouping(db, commits, true), run, ids, domains[..n], domain);
      Findings.SameMembers(db, b.db, ids, domains[n], domain);
      Findings.MembersAre(db, ids, domains[n], domain);
      var members := Findings.Members(db, ids, domains[n], domain);
      Findings.PairsAre(|b.db.findings|, members);
      forall x | x in Findings.Pairs(|b.db.findings|, members) ensures x.0 == |b.db.findings| && x.1 in members {
      }
      var s := Findings.SomeMember(db, ids, domains[n], domain);
      SupportedGroup(db, run, members, s);
    }
  }

  /** A group with a verified statement is never of the lowest tier. */
  lemma SupportedGroup(db: Db, run: nat, members: seq<nat>, s: nat)
    requires GateOk(db) && LinksFit(db) && s in members
    requires s < |db.statements| && db.statements[s].run == run && db.statements[s].status == Verified
    ensures Findings.TierFor(Findings.ScoresOf(Findings.RunLinks(db.links, run), members)) != T3
  {
    var l := SupportingLink(db, s);
    Findings.RunLinksAre(db.links, run);
    Findings.ScoresAre(Findings.RunLinks(db.links, run), members);
    assert Findings.HasVerifyScore(Findings.RunLinks(db.links, run), s, l.score);
  }

  /** A verified statement has a verify link, from its own passage and run, that supports it. */
  lemma SupportingLink(db: Db, s: nat) returns (l: Link)
    requires GateOk(db) && LinksFit(db) && s < |db.statements| && db.statements[s].status == Verified
    ensures l in db.links && l.statement == s && l.how == Verify && l.score != Unsupported
    ensures l.passage == db.statements[s].passage && l.run == db.statements[s].run
  {
    assert GateRow(db, s);
    l := Last(LinksOf(db.links, s, Verify));
    LinksOfAre(db.links, s, Verify);
    assert l in LinksOf(db.links, s, Verify);
  }

  lemma {:induction false} LinksOfAre(links: seq<Link>, s: nat, how: Method)
    ensures forall l :: l in LinksOf(links, s, how) <==> l in links && l.statement == s && l.how == how
  {
    if links != [] {
      var n := |links| - 1;
      LinksOfAre(links[..n], s, how);
      assert links == links[..n] + [links[n]];
    }
  }

  lemma SynthesizedKeeps(db: Db, e: Event)
    requires Sound(db) && e.Synthesized?
    ensures Sound(Step(db, e))
    ensures forall x | x in Step(db, e).conclusionEvidence && x !in db.conclusionEvidence ::
              x.1 < |db.statements| && db.statements[x.1].status == Verified
  {
    var after := Step(db, e);
    if after != db {
      var ids := Picked(db, e.run, e.pick, |db.statements|);
      var q := Report.Inputs(e.run, ids, e.conflicts, e.naming);
      PickedAre(db, e.run, e.pick, |db.statements|);
      Report.GenerateKeeps(db, q, e.drafts, e.commit);
      Report.WriteAllAudits(db, q, e.drafts.value);
      var more := after.audits[|db.audits|..];
      assert after.audits == db.audits + more;
      GateKept(db, after, more);
      ConflictsKept(db, after, more);
      CitationsFit(db, after, q);
    }
  }

  /** New evidence is of the run of its conclusion. */
  lemma CitationsFit(db: Db, after: Db, q: Report.Inputs)
    requires EvidenceFits(db) && Report.ConclusionsOk(after) && Report.Extends(db, after)
          && Report.NewCitations(db, after, q)
    requires forall s | s in q.statements :: s < |db.statements| && db.statements[s].run == q.run
    ensures EvidenceFits(after)
  {
    forall x | x in after.conclusionEvidence
      ensures x.0 < |after.conclusions| && x.1 < |after.statements|
           && after.conclusions[x.0].run == after.statements[x.1].run
    {
      if x in db.conclusionEvidence {
        assert after.conclusions[x.0] == db.conclusions[x.0];
      }
    }
  }

  lemma StepKeeps(db: Db, e: Event)
    requires Sound(db)
    ensures Sound(Step(db, e))
  {
    match e
    case Collected(run, uri) => CollectedKeeps(db, run, uri);
    case Chunked(source, texts) => ChunkedKeeps(db, source, texts);
    case Extracted(_, _, _, _) => ExtractedKeeps(db, e);
    case Checked(_, _, _, _, _) => CheckedKeeps(db, e);
    case Detected(_, _, _, _) => DetectedKeeps(db, e);
    case Found(_, _, _) => FoundKeeps(db, e);
    case Synthesized(_, _, _, _, _, _) => SynthesizedKeeps(db, e);
  }

  lemma {:induction false} HistoryKeeps(events: seq<Event>)
    ensures Sound(History(events))
  {
    if events != [] {
      HistoryKeeps(events[..|events| - 1]);
      StepKeeps(History(events[..|events| - 1]), events[|events| - 1]);
    }
  }

  // ------------------------------------------------------------------------- tracing

  /** The trace lookup of `app/api/routes.py`: statement, passage, source; `None` is a 404. */
  function Trace(db: Db, s: nat): Option<(Statement, Passage, Source)> {
    if s >= |db.statements| then None
    else if db.statements[s].passage >= |db.passages| then None
    else
      var passage := db.passages[db.statements[s].passage];
      if passage.source >= |db.sources| then None
      else Some((db.statements[s], passage, db.sources[passage.source]))
  }

  /**
   After any history the trace of a statement fails exactly for statements that do not exist, and stays
   within the run.
   */
  lemma TraceNeverDeadEnds(events: seq<Event>, s: nat)
    ensures var db := History(events);
      && (Trace(db, s).Some? <==> s < |db.statements|)
      && (Trace(db, s).Some? ==>
            var (row, passage, source) := Trace(db, s).value;
            && row == db.statements[s] && passage == db.passages[row.passage] && source == db.sources[passage.source]
            && source.run == row.run)
  {
    HistoryKeeps(events);
    var db := History(events);
    if s < |db.statements| {
      assert db.statements[s] in db.statements;
      assert db.passages[db.statements[s].passage] in db.passages;
    }
  }

  // -------------------------------------------------------------- what stays verified

  /** Everything a finding, a contradiction or a conclusion rests on is verified. */
  ghost predicate AllVerified(db: Db) {
    && (forall x | x in db.findingStatements :: x.1 < |db.statements| && db.statements[x.1].status == Verified)
    && (forall x | x in db.conclusionEvidence :: x.1 < |db.statements| && db.statements[x.1].status == Verified)
    && (forall c | c in db.contradictions ::
          && c.a < |db.statements| && c.b < |db.statements|
          && db.statements[c.a].status == Verified && db.statements[c.b].status == Verified)
  }

  /** Some finding, contradiction or conclusion rests on the statement. */
  ghost predicate Relied(db: Db, s: nat) {
    || (exists x | x in db.findingStatements :: x.1 == s)
    || (exists x | x in db.conclusionEvidence :: x.1 == s)
    || (exists c | c in db.contradictions :: c.a == s || c.b == s)
  }

  /**
   The call is a forced check, committed, on a statement with words, of which the passage holds
   less than a quarter or which the judge denies.
   */
  predicate Demotes(db: Db, e: Event) {
    && e.Checked? && e.force && e.commit && e.s < |db.statements| && db.statements[e.s].passage < |db.passages|
    && var text, source := db.statements[e.s].text, db.passages[db.statements[e.s].passage].text;
       && !text.blank && text.tokens != {}
       && (source.blank || 4 * |text.tokens * source.tokens| < |text.tokens| || e.judge == Denies)
  }

  /**
   A call leaves everything relied upon verified, unless it is a forced check that quarantines such a
   statement: exactly then.
   */
  lemma OnlyForceDemotes(db: Db, e: Event)
    requires Sound(db) && AllVerified(db)
    ensures AllVerified(Step(db, e)) <==> !(Demotes(db, e) && Relied(db, e.s))
  {
    match e
    case Collected(_, _) =>
    case Chunked(_, _) =>
    case Extracted(_, _, _, _) => ExtractedVerified(db, e);
    case Checked(_, _, _, _, _) => CheckedDemotes(db, e);
    case Detected(_, _, _, _) => DetectedVerified(db, e);
    case Found(_, _, _) => FoundPart(db, e.run, e.domain, e.commits);
    case Synthesized(_, _, _, _, _, _) => SynthesizedVerified(db, e);
  }

  lemma ExtractedVerified(db: Db, e: Event)
    requires AllVerified(db) && e.Extracted?
    ensures AllVerified(Step(db, e))
  {
  }

  lemma DetectedVerified(db: Db, e: Event)
    requires Sound(db) && AllVerified(db) && e.Detected?
    ensures AllVerified(Step(db, e))
  {
    DetectedKeeps(db, e);
    Detector.DetectKeeps(db, ClaimsOf(Picked(db, e.run, e.pick, |db.statements|), e.words), e.run, e.pairs);
  }

  lemma SynthesizedVerified(db: Db, e: Event)
    requires Sound(db) && AllVerified(db) && e.Synthesized?
    ensures AllVerified(Step(db, e))
  {
    SynthesizedKeeps(db, e);
    Report.GenerateKeeps(db, Report.Inputs(e.run, Picked(db, e.run, e.pick, |db.statements|), e.conflicts, e.naming),
                         e.drafts, e.commit);
  }

  /** The condition is what makes a forced check quarantine its statement. */
  lemma DemotesIff(db: Db, e: Event)
    requires e.Checked? && e.s < |db.statements| && db.statements[e.s].passage < |db.passages|
    ensures var row := db.statements[e.s];
      var outcome := VerifyOne(db, e.s, row.passage, row.run, e.judge, e.commit, e.force, e.delay).1;
      Demotes(db, e) <==> e.force && outcome.Decided? && outcome.decision == Quarantined
  {
    VerifiedIff(db, e.s, db.statements[e.s].passage, db.statements[e.s].run, e.judge, e.commit, e.force, e.delay);
  }

  /** A check changes at most the status of its own statement. */
  lemma CheckedRow(db: Db, e: Event)
    requires e.Checked? && e.s < |db.statements| && db.statements[e.s].passage < |db.passages|
    ensures var row := db.statements[e.s];
      var outcome := VerifyOne(db, e.s, row.passage, row.run, e.judge, e.commit, e.force, e.delay).1;
      && Step(db, e) == db.(statements := Step(db, e).statements, links := Step(db, e).links,
                            audits := Step(db, e).audits, clock := Step(db, e).clock)
      && Step(db, e).statements == (if outcome.Decided? then db.statements[e.s := row.(status := outcome.decision)]
                                    else db.statements)
      && (outcome.Decided? && row.status != Draft ==> e.force)
      && (outcome.Decided? ==> outcome.decision != Draft)
  {
  }

  lemma CheckedDemotes(db: Db, e: Event)
    requires AllVerified(db) && e.Checked?
    ensures AllVerified(Step(db, e)) <==> !(Demotes(db, e) && Relied(db, e.s))
  {
    if e.s < |db.statements| && db.statements[e.s].passage < |db.passages| {
      DemotesIff(db, e);
      CheckedRow(db, e);
    }
  }

  ghost predicate Unforced(events: seq<Event>) {
    forall e | e in events && e.Checked? :: !e.force
  }

  /**
   Without forced checks, as the pipeline runs: each conclusion has evidence, and each cited
   statement is still verified, traces to a source of the conclusion's run, and has a verify
   link from its own passage that supports it.
   */
  lemma ConclusionsStand(events: seq<Event>, c: nat, s: nat)
    requires Unforced(events) && c < |History(events).conclusions|
    ensures var db := History(events);
      && Report.EvidenceOf(db.conclusionEvidence, c) != []
      && ((c, s) in db.conclusionEvidence ==>
            && s < |db.statements| && db.statements[s].status == Verified
            && Trace(db, s).Some? && Trace(db, s).value.2.run == db.conclusions[c].run
            && Report.SupportOf(db.links, s) != Unsupported
            && exists l | l in db.links :: l.statement == s && l.how == Verify && l.score != Unsupported
                                           && l.passage == db.statements[s].passage && l.run == db.conclusions[c].run)
  {
    var db := History(events);
    HistoryKeeps(events);
    UnforcedKeeps(events);
    assert Report.ConclusionRow(db, c);
    if (c, s) in db.conclusionEvidence {
      TraceNeverDeadEnds(events, s);
      Report.SupportIsTheVerdict(db, s);
      var l := SupportingLink(db, s);
    }
  }

  lemma {:induction false} UnforcedKeeps(events: seq<Event>)
    requires Unforced(events)
    ensures AllVerified(History(events))
  {
    if events != [] {
      var n := |events| - 1;
      UnforcedKeeps(events[..n]);
      HistoryKeeps(events[..n]);
      assert events[n] in events;
      OnlyForceDemotes(History(events[..n]), events[n]);
    }
  }

  lemma HistorySnoc(events: seq<Event>, e: Event)
    ensures History(events + [e]) == Step(History(events), e)
  {
    assert (events + [e])[..|events|] == events;
  }
}
