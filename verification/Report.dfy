/**
 The report generator (`app/services/report_generator.py`): conclusions, their evidence and their audit
 rows in one commit.
 */
module Report {
  import opened Prelude
  import opened Knowledge
  import opened Gate
  import Findings

  /** One conclusion proposed by the model; `keyword` says its redacted text holds a high-stakes keyword. */
  datatype Proposal = Proposal(ids: seq<nat>, oneSided: bool, highStakes: bool, keyword: bool)

  /** One conclusion of the returned report. */
  datatype Entry = Entry(conclusion: nat, cited: seq<nat>, support: seq<Score>, oneSided: bool, humanReview: bool,
                         warnings: seq<nat>)

  /** How source URIs become domains, and which domains count as blank. */
  datatype Naming = Naming(domain: string -> string, blank: string -> bool)

  // ------------------------------------------------------------------ support scores

  /** The newest verify link of a statement; among links of the same time, the one read last. */
  function Latest(links: seq<Link>, s: nat): Option<Link> {
    if links == [] then None
    else
      var n := |links| - 1;
      var before := Latest(links[..n], s);
      if links[n].statement == s && links[n].how == Verify && (before.None? || links[n].at >= before.value.at)
      then Some(links[n]) else before
  }

  function SupportOf(links: seq<Link>, s: nat): Score {
    if Latest(links, s).None? then Unsupported else Latest(links, s).value.score
  }

  /** `_latest_verify_scores`, before the links are reduced to their scores. */
  method LatestVerifyLinks(links: seq<Link>, ids: seq<nat>) returns (latest: map<nat, Link>)
    ensures forall s | s in ids :: Latest(links, s) == if s in latest then Some(latest[s]) else None
  {
    latest := map[];
    for i := 0 to |links|
      invariant forall s | s in ids :: Latest(links[..i], s) == if s in latest then Some(latest[s]) else None
    {
      assert links[..i + 1][..i] == links[..i];
      var link := links[i];
      if link.statement !in ids || link.how != Verify {
        continue;
      }
      if link.statement !in latest || link.at >= latest[link.statement].at {
        latest := latest[link.statement := link];
      }
    }
    assert links[..|links|] == links;
  }

  predicate VerifyLinkOf(links: seq<Link>, s: nat, l: Link) {
    l in links && l.statement == s && l.how == Verify
  }

  /** Rows may be read in any order: the result is a verify link of the statement that no other is newer than. */
  lemma {:induction false} LatestIsNewest(links: seq<Link>, s: nat)
    ensures Latest(links, s).None? <==> forall l | l in links :: !VerifyLinkOf(links, s, l)
    ensures Latest(links, s).Some? ==>
              && VerifyLinkOf(links, s, Latest(links, s).value)
              && forall l | VerifyLinkOf(links, s, l) :: l.at <= Latest(links, s).value.at
  {
    if links != [] {
      var n := |links| - 1;
      LatestIsNewest(links[..n], s);
      assert links == links[..n] + [links[n]];
      forall l | VerifyLinkOf(links, s, l) ensures l == links[n] || VerifyLinkOf(links[..n], s, l) {
      }
      if Latest(links[..n], s).Some? {
        assert VerifyLinkOf(links, s, Latest(links[..n], s).value);
      }
      if links[n].statement == s && links[n].how == Verify {
        assert VerifyLinkOf(links, s, links[n]);
      }
    }
  }

  /** Links are written in the order of their times. */
  ghost predicate TimeOrdered(db: Db) {
    && (forall i, j | 0 <= i < j < |db.links| :: db.links[i].at <= db.links[j].at)
    && (forall l | l in db.links :: l.at <= db.clock)
  }

  lemma {:induction false} LatestIsLast(links: seq<Link>, s: nat)
    requires forall i, j | 0 <= i < j < |links| :: links[i].at <= links[j].at
    ensures Latest(links, s) == if LinksOf(links, s, Verify) == [] then None else Some(Last(LinksOf(links, s, Verify)))
  {
    if links != [] {
      var n := |links| - 1;
      LatestIsLast(links[..n], s);
      LatestIsNewest(links[..n], s);
      if Latest(links[..n], s).Some? {
        var i :| 0 <= i < n && links[i] == Latest(links[..n], s).value;
      }
    }
  }

  /** The support a report shows for a verified statement is the score of its last verdict, never `Unsupported`. */
  lemma SupportIsTheVerdict(db: Db, s: nat)
    requires GateOk(db) && TimeOrdered(db) && s < |db.statements| && db.statements[s].status == Verified
    ensures VerdictsOn(db.audits, s) != [] && Last(VerdictsOn(db.audits, s)).Verdict?
    ensures SupportOf(db.links, s) == Last(VerdictsOn(db.audits, s)).score
    ensures SupportOf(db.links, s) != Unsupported
  {
    LatestIsLast(db.links, s);
    assert GateRow(db, s);
  }

  // ---------------------------------------------------------------------- one-sidedness

  function DomainsOf(db: Db, cited: seq<nat>, naming: Naming): set<string> {
    set s | s in cited && !naming.blank(Findings.DomainFor(db, s, naming.domain)) ::
      Findings.DomainFor(db, s, naming.domain)
  }

  /** `one_sidedness_check`. */
  predicate OneSided(db: Db, cited: seq<nat>, flagged: bool, naming: Naming) {
    flagged || |DomainsOf(db, cited, naming)| < 2
  }

  /** Two of the cited statements come from different domains, both named. */
  ghost predicate TwoDomains(db: Db, cited: seq<nat>, naming: Naming) {
    exists s, t | s in cited && t in cited ::
      && !naming.blank(Findings.DomainFor(db, s, naming.domain))
      && !naming.blank(Findings.DomainFor(db, t, naming.domain))
      && Findings.DomainFor(db, s, naming.domain) != Findings.DomainFor(db, t, naming.domain)
  }

  /**
   A conclusion escapes the flag exactly when the model clears it and two cited statements come from
   different named domains.
   */
  lemma BalancedIff(db: Db, cited: seq<nat>, flagged: bool, naming: Naming)
    ensures !OneSided(db, cited, flagged, naming) <==> !flagged && TwoDomains(db, cited, naming)
  {
    var all := DomainsOf(db, cited, naming);
    if |all| >= 2 {
      var x :| x in all;
      assert |all - {x}| > 0;
      var y :| y in all - {x};
      assert x in all && y in all && x != y;
    }
    forall s, t | s in cited && t in cited
      && !naming.blank(Findings.DomainFor(db, s, naming.domain))
      && !naming.blank(Findings.DomainFor(db, t, naming.domain))
      && Findings.DomainFor(db, s, naming.domain) != Findings.DomainFor(db, t, naming.domain)
      ensures |all| >= 2
    {
      SubsetSize({Findings.DomainFor(db, s, naming.domain), Findings.DomainFor(db, t, naming.domain)}, all);
    }
  }

  // ------------------------------------------------------------------------- generate

  function VerifiedAmong(db: Db, inputs: seq<nat>): seq<nat> {
    if inputs == [] then []
    else
      var n := |inputs| - 1;
      var s := inputs[n];
      VerifiedAmong(db, inputs[..n]) + (if s < |db.statements| && db.statements[s].status == Verified then [s] else [])
  }

  function CitedAmong(ids: seq<nat>, known: seq<nat>): seq<nat> {
    if ids == [] then []
    else
      var n := |ids| - 1;
      CitedAmong(ids[..n], known) + (if ids[n] in known then [ids[n]] else [])
  }

  function Touching(db: Db, conflicts: seq<nat>, cited: seq<nat>): seq<nat> {
    if conflicts == [] then []
    else
      var n := |conflicts| - 1;
      var c := conflicts[n];
      Touching(db, conflicts[..n], cited)
      + (if c < |db.contradictions| && db.contradictions[c].status == Confirmed
            && (db.contradictions[c].a in cited || db.contradictions[c].b in cited) then [c] else [])
  }

  function SupportsOf(links: seq<Link>, cited: seq<nat>): seq<Score> {
    seq(|cited|, i requires 0 <= i < |cited| => SupportOf(links, cited[i]))
  }

  function EvidenceRows(conclusion: nat, cited: seq<nat>): seq<(nat, nat)> {
    seq(|cited|, i requires 0 <= i < |cited| => (conclusion, cited[i]))
  }

  /** What is fixed while the drafts are written. */
  datatype Inputs = Inputs(run: nat, statements: seq<nat>, conflicts: seq<nat>, naming: Naming)

  /** The session's pending rows on top of the stored ones, and the report so far. */
  datatype Writing = Writing(db: Db, report: seq<Entry>)

  function WriteOne(st: Writing, q: Inputs, p: Proposal): Writing {
    var cited := CitedAmong(p.ids, VerifiedAmong(st.db, q.statements));
    if cited == [] then st
    else
      var row := |st.db.conclusions|;
      var review, lone := p.keyword || p.highStakes, OneSided(st.db, cited, p.oneSided, q.naming);
      Writing(
        st.db.(conclusions := st.db.conclusions + [Conclusion(q.run, review)],
               conclusionEvidence := st.db.conclusionEvidence + EvidenceRows(row, cited),
               audits := st.db.audits + [Concluded(row, cited)]),
        st.report + [Entry(row, cited, SupportsOf(st.db.links, cited), lone, review,
                           Touching(st.db, q.conflicts, cited))])
  }

  function WriteAll(st: Writing, q: Inputs, drafts: seq<Proposal>): Writing {
    if drafts == [] then st else WriteOne(WriteAll(st, q, drafts[..|drafts| - 1]), q, drafts[|drafts| - 1])
  }

  /**
   `generate`: `None` is a raised error.  The one commit fails if the database does (`commit`)
   or if an evidence row would repeat a (conclusion, statement) key.
   */
  function GenerateRun(db: Db, q: Inputs, reply: Option<seq<Proposal>>, commit: bool): (Db, Option<seq<Entry>>) {
    if VerifiedAmong(db, q.statements) == [] || reply.None? then (db, None)
    else
      var st := WriteAll(Writing(db, []), q, reply.value);
      if commit && NoDup(st.db.conclusionEvidence) then (st.db, Some(st.report)) else (db, None)
  }

  class ReportGenerator {
    const store: Store

    constructor (store: Store)
      ensures this.store == store
    {
      this.store := store;
    }

    method Generate(q: Inputs, reply: Option<seq<Proposal>>, commit: bool) returns (report: Option<seq<Entry>>)
      modifies store
      ensures (store.db, report) == GenerateRun(old(store.db), q, reply, commit)
    {
      var db := store.db;
      var verified := VerifiedAmong(db, q.statements);
      if verified == [] || reply.None? {
        return None;
      }
      var latest := LatestVerifyLinks(db.links, verified);
      var pending := db;
      var entries: seq<Entry> := [];
      for k := 0 to |reply.value|
        invariant store.db == db
        invariant Writing(pending, entries) == WriteAll(Writing(db, []), q, reply.value[..k])
        invariant pending == db.(conclusions := pending.conclusions, conclusionEvidence := pending.conclusionEvidence,
                                 audits := pending.audits)
      {
        assert reply.value[..k + 1][..k] == reply.value[..k];
        var p := reply.value[k];
        SameVerified(db, pending, q.statements);
        var cited := CitedAmong(p.ids, verified);
        if cited == [] {
          continue;
        }
        CitedAre(p.ids, verified);
        var row := |pending.conclusions|;
        var lone, review := OneSided(pending, cited, p.oneSided, q.naming), p.keyword || p.highStakes;
        var support := seq(|cited|, i requires 0 <= i < |cited| =>
          if cited[i] in latest then latest[cited[i]].score else Unsupported);
        assert support == SupportsOf(pending.links, cited) by {
          forall i | 0 <= i < |cited| ensures support[i] == SupportOf(pending.links, cited[i]) {
            assert cited[i] in cited;
          }
        }
        entries := entries + [Entry(row, cited, support, lone, review, Touching(pending, q.conflicts, cited))];
        pending := pending.(
          conclusions := pending.conclusions + [Conclusion(q.run, review)],
          conclusionEvidence := pending.conclusionEvidence + EvidenceRows(row, cited),
          audits := pending.audits + [Concluded(row, cited)]);
      }
      assert reply.value[..|reply.value|] == reply.value;
      assert Writing(pending, entries) == WriteAll(Writing(db, []), q, reply.value);
      if !commit || !NoDup(pending.conclusionEvidence) {
        return None;
      }
      store.db := pending;
      return Some(entries);
    }
  }

  lemma {:induction false} SameVerified(a: Db, b: Db, inputs: seq<nat>)
    requires a.statements == b.statements
    ensures VerifiedAmong(a, inputs) == VerifiedAmong(b, inputs)
  {
    if inputs != [] {
      SameVerified(a, b, inputs[..|inputs| - 1]);
    }
  }

  lemma {:induction false} VerifiedAre(db: Db, inputs: seq<nat>)
    ensures forall s :: s in VerifiedAmong(db, inputs) <==>
              s in inputs && s < |db.statements| && db.statements[s].status == Verified
  {
    if inputs != [] {
      var n := |inputs| - 1;
      VerifiedAre(db, inputs[..n]);
      assert inputs == inputs[..n] + [inputs[n]];
    }
  }

  lemma {:induction false} CitedAre(ids: seq<nat>, known: seq<nat>)
    ensures forall s :: s in CitedAmong(ids, known) <==> s in ids && s in known
  {
    if ids != [] {
      var n := |ids| - 1;
      CitedAre(ids[..n], known);
      assert ids == ids[..n] + [ids[n]];
    }
  }

  // ------------------------------------------------------------------- what is kept

  /** The statements cited by a conclusion, in order. */
  function EvidenceOf(rows: seq<(nat, nat)>, conclusion: nat): seq<nat> {
    if rows == [] then []
    else
      var n := |rows| - 1;
      EvidenceOf(rows[..n], conclusion) + (if rows[n].0 == conclusion then [rows[n].1] else [])
  }

  /** The citations audited for a conclusion. */
  function NotesFor(audits: seq<Audit>, conclusion: nat): seq<seq<nat>> {
    if audits == [] then []
    else
      var n := |audits| - 1;
      NotesFor(audits[..n], conclusion)
      + (if audits[n].Concluded? && audits[n].conclusion == conclusion then [audits[n].cited] else [])
  }

  ghost predicate ConclusionRow(db: Db, c: nat) {
    EvidenceOf(db.conclusionEvidence, c) != [] && NotesFor(db.audits, c) == [EvidenceOf(db.conclusionEvidence, c)]
  }

  /** Every conclusion has evidence, and one audit row that lists exactly its evidence. */
  ghost predicate RowsOk(db: Db) {
    && (forall e | e in db.conclusionEvidence :: e.0 < |db.conclusions| && e.1 < |db.statements|)
    && (forall a | a in db.audits && a.Concluded? :: a.conclusion < |db.conclusions|)
    && (forall c | 0 <= c < |db.conclusions| :: ConclusionRow(db, c))
  }

  /** Moreover no conclusion cites a statement twice, as the key of the table demands. */
  ghost predicate ConclusionsOk(db: Db) {
    RowsOk(db) && NoDup(db.conclusionEvidence)
  }

  lemma {:induction false} EvidenceAppend(rows: seq<(nat, nat)>, conclusion: nat, cited: seq<nat>, c: nat)
    ensures EvidenceOf(rows + EvidenceRows(conclusion, cited), c)
         == EvidenceOf(rows, c) + (if c == conclusion then cited else [])
  {
    var all := rows + EvidenceRows(conclusion, cited);
    if cited == [] {
      assert all == rows;
    } else {
      var n := |cited| - 1;
      EvidenceAppend(rows, conclusion, cited[..n], c);
      assert all[..|all| - 1] == rows + EvidenceRows(conclusion, cited[..n]);
    }
  }

  lemma NotesSnoc(audits: seq<Audit>, audit: Audit, c: nat)
    ensures NotesFor(audits + [audit], c)
         == NotesFor(audits, c) + (if audit.Concluded? && audit.conclusion == c then [audit.cited] else [])
  {
    assert (audits + [audit])[..|audits|] == audits;
  }

  lemma {:induction false} NoEvidenceYet(rows: seq<(nat, nat)>, c: nat)
    requires forall e | e in rows :: e.0 != c
    ensures EvidenceOf(rows, c) == []
  {
    if rows != [] {
      NoEvidenceYet(rows[..|rows| - 1], c);
    }
  }

  lemma {:induction false} NoNotesYet(audits: seq<Audit>, c: nat)
    requires forall a | a in audits && a.Concluded? :: a.conclusion != c
    ensures NotesFor(audits, c) == []
  {
    if audits != [] {
      NoNotesYet(audits[..|audits| - 1], c);
    }
  }

  /** Fresh rows for one conclusion repeat a key exactly when its citations do. */
  lemma FreshKeys(rows: seq<(nat, nat)>, conclusion: nat, cited: seq<nat>)
    requires forall e | e in rows :: e.0 != conclusion
    ensures NoDup(rows + EvidenceRows(conclusion, cited)) <==> NoDup(rows) && NoDup(cited)
  {
    var added := EvidenceRows(conclusion, cited);
    var all := rows + added;
    assert forall i | 0 <= i < |rows| :: all[i] == rows[i] && rows[i] in rows;
    assert forall i | 0 <= i < |cited| :: all[|rows| + i] == (conclusion, cited[i]);
    if NoDup(all) {
      forall i, j | 0 <= i < j < |cited| ensures cited[i] != cited[j] {
        assert all[|rows| + i] != all[|rows| + j];
      }
    } else {
      var i, j :| 0 <= i < j < |all| && all[i] == all[j];
      if |rows| <= i {
        assert cited[i - |rows|] == cited[j - |rows|];
      }
    }
  }

  /** `b` has the rows of `a` and perhaps more conclusions, with their evidence and audit rows. */
  ghost predicate Extends(a: Db, b: Db) {
    && b == a.(conclusions := b.conclusions, conclusionEvidence := b.conclusionEvidence, audits := b.audits)
    && a.conclusions <= b.conclusions && a.conclusionEvidence <= b.conclusionEvidence && a.audits <= b.audits
  }

  lemma WriteOneRow(b: Writing, q: Inputs, p: Proposal, c: nat)
    requires RowsOk(b.db) && c < |WriteOne(b, q, p).db.conclusions|
    ensures ConclusionRow(WriteOne(b, q, p).db, c)
  {
    var cited, row := CitedAmong(p.ids, VerifiedAmong(b.db, q.statements)), |b.db.conclusions|;
    EvidenceAppend(b.db.conclusionEvidence, row, cited, c);
    NotesSnoc(b.db.audits, Concluded(row, cited), c);
    if c < row {
      assert ConclusionRow(b.db, c);
      assert EvidenceOf(b.db.conclusionEvidence, c) + [] == EvidenceOf(b.db.conclusionEvidence, c);
      assert NotesFor(b.db.audits, c) + [] == NotesFor(b.db.audits, c);
    } else {
      NoEvidenceYet(b.db.conclusionEvidence, row);
      NoNotesYet(b.db.audits, row);
      assert [] + cited == cited && [] + [cited] == [cited];
    }
  }

  lemma WriteOneRows(b: Writing, q: Inputs, p: Proposal)
    requires RowsOk(b.db)
    ensures RowsOk(WriteOne(b, q, p).db) && Extends(b.db, WriteOne(b, q, p).db)
  {
    var known := VerifiedAmong(b.db, q.statements);
    var cited := CitedAmong(p.ids, known);
    if cited != [] {
      VerifiedAre(b.db, q.statements);
      CitedAre(p.ids, known);
      forall e | e in EvidenceRows(|b.db.conclusions|, cited)
        ensures e.0 == |b.db.conclusions| && e.1 < |b.db.statements|
      {
        assert e.1 in cited;
      }
      forall c | 0 <= c < |WriteOne(b, q, p).db.conclusions| ensures ConclusionRow(WriteOne(b, q, p).db, c) {
        WriteOneRow(b, q, p, c);
      }
    }
  }

  lemma {:induction false} WriteAllRows(db: Db, q: Inputs, drafts: seq<Proposal>)
    requires RowsOk(db)
    ensures RowsOk(WriteAll(Writing(db, []), q, drafts).db) && Extends(db, WriteAll(Writing(db, []), q, drafts).db)
  {
    if drafts != [] {
      WriteAllRows(db, q, drafts[..|drafts| - 1]);
      WriteOneRows(WriteAll(Writing(db, []), q, drafts[..|drafts| - 1]), q, drafts[|drafts| - 1]);
    }
  }

  ghost predicate NoneRepeats(drafts: seq<Proposal>, known: seq<nat>) {
    forall p | p in drafts :: NoDup(CitedAmong(p.ids, known))
  }

  /** A key is repeated exactly when a draft repeats a citation. */
  lemma {:induction false} WriteAllKeys(db: Db, q: Inputs, drafts: seq<Proposal>)
    requires ConclusionsOk(db)
    ensures NoDup(WriteAll(Writing(db, []), q, drafts).db.conclusionEvidence)
       <==> NoneRepeats(drafts, VerifiedAmong(db, q.statements))
  {
    if drafts != [] {
      var n := |drafts| - 1;
      WriteAllKeys(db, q, drafts[..n]);
      WriteAllRows(db, q, drafts[..n]);
      var b := WriteAll(Writing(db, []), q, drafts[..n]);
      SameVerified(db, b.db, q.statements);
      FreshKeys(b.db.conclusionEvidence, |b.db.conclusions|,
                CitedAmong(drafts[n].ids, VerifiedAmong(db, q.statements)));
      assert drafts == drafts[..n] + [drafts[n]];
    }
  }

  /** The new rows belong to the run and cite inputs that are verified. */
  ghost predicate NewCitations(db: Db, after: Db, q: Inputs) {
    && (forall c | |db.conclusions| <= c < |after.conclusions| :: after.conclusions[c].run == q.run)
    && (forall e | e in after.conclusionEvidence && e !in db.conclusionEvidence ::
          && |db.conclusions| <= e.0
          && e.1 in q.statements && e.1 < |db.statements| && db.statements[e.1].status == Verified)
  }

  lemma {:induction false} WriteAllCites(db: Db, q: Inputs, drafts: seq<Proposal>)
    requires RowsOk(db)
    ensures NewCitations(db, WriteAll(Writing(db, []), q, drafts).db, q)
  {
    if drafts != [] {
      var n := |drafts| - 1;
      WriteAllCites(db, q, drafts[..n]);
      WriteAllRows(db, q, drafts[..n]);
      var b := WriteAll(Writing(db, []), q, drafts[..n]);
      SameVerified(db, b.db, q.statements);
      VerifiedAre(db, q.statements);
      var cited := CitedAmong(drafts[n].ids, VerifiedAmong(db, q.statements));
      CitedAre(drafts[n].ids, VerifiedAmong(db, q.statements));
      forall e | e in EvidenceRows(|b.db.conclusions|, cited) ensures e.0 == |b.db.conclusions| && e.1 in cited {
      }
    }
  }

  /**
   A report is committed exactly when some input is verified, the model answers, the database
   takes the commit, and no draft cites a known statement twice.  One repeated citation in one
   draft loses the conclusions of all the others.
   */
  lemma CommitsIff(db: Db, q: Inputs, reply: Option<seq<Proposal>>, commit: bool)
    requires ConclusionsOk(db)
    ensures GenerateRun(db, q, reply, commit).1.Some? <==>
              && (exists s | s in q.statements :: s < |db.statements| && db.statements[s].status == Verified)
              && reply.Some? && commit && NoneRepeats(reply.value, VerifiedAmong(db, q.statements))
  {
    var known := VerifiedAmong(db, q.statements);
    VerifiedAre(db, q.statements);
    if known != [] {
      assert known[0] in known;
    }
    if reply.Some? {
      WriteAllKeys(db, q, reply.value);
    }
  }

  /**
   Every call keeps the conclusions in order; new ones cite only inputs that were verified; a raised
   error changes nothing.
   */
  lemma GenerateKeeps(db: Db, q: Inputs, reply: Option<seq<Proposal>>, commit: bool)
    requires ConclusionsOk(db)
    ensures var (db', report) := GenerateRun(db, q, reply, commit);
      && ConclusionsOk(db') && Extends(db, db') && NewCitations(db, db', q)
      && (report.None? ==> db' == db)
  {
    if reply.Some? {
      WriteAllRows(db, q, reply.value);
      WriteAllCites(db, q, reply.value);
    }
  }

  lemma CitedTwice(s: nat)
    ensures CitedAmong([s], [s]) == [s] && CitedAmong([s, s], [s]) == [s, s]
  {
    assert [s][..0] == [] && [s, s][..1] == [s];
  }

  /** A call with one draft over one verified statement returns exactly if the draft does not repeat it. */
  lemma OneDraftReturnsIff(db: Db, q: Inputs, s: nat, p: Proposal)
    requires ConclusionsOk(db) && s < |db.statements| && db.statements[s].status == Verified && q.statements == [s]
    ensures GenerateRun(db, q, Some([p]), true).1.Some? <==> NoDup(CitedAmong(p.ids, [s]))
  {
    assert [s][..0] == [];
    assert VerifiedAmong(db, [s]) == [s];
    CommitsIff(db, q, Some([p]), true);
    assert p in [p] && s in [s];
  }

  /** A statement cited twice in one draft, everything else in order: the call raises. */
  lemma RepeatedCitationRaises(db: Db, q: Inputs, s: nat, p: Proposal)
    requires ConclusionsOk(db) && s < |db.statements| && db.statements[s].status == Verified && q.statements == [s]
    ensures GenerateRun(db, q, Some([p.(ids := [s, s])]), true).1.None?
    ensures GenerateRun(db, q, Some([p.(ids := [s])]), true).1.Some?
  {
    CitedTwice(s);
    OneDraftReturnsIff(db, q, s, p.(ids := [s, s]));
    OneDraftReturnsIff(db, q, s, p.(ids := [s]));
    assert [s, s][0] == [s, s][1];
  }

  /** The only audit rows a call adds are about conclusions. */
  lemma {:induction false} WriteAllAudits(db: Db, q: Inputs, drafts: seq<Proposal>)
    ensures db.audits <= WriteAll(Writing(db, []), q, drafts).db.audits
    ensures forall a | a in WriteAll(Writing(db, []), q, drafts).db.audits[|db.audits|..] :: a.Concluded?
  {
    if drafts != [] {
      WriteAllAudits(db, q, drafts[..|drafts| - 1]);
    }
  }

  // ----------------------------------------------------------------- the report itself

  /** What one entry of a report says about the database it was made from. */
  ghost predicate EntryOk(db: Db, e: Entry, q: Inputs) {
    && |e.support| == |e.cited|
    && (forall i | 0 <= i < |e.cited| ::
          e.cited[i] < |db.statements| && e.support[i] == SupportOf(db.links, e.cited[i]))
    && (forall c :: c in e.warnings <==>
          && c in q.conflicts && c < |db.contradictions| && db.contradictions[c].status == Confirmed
          && (db.contradictions[c].a in e.cited || db.contradictions[c].b in e.cited))
  }

  lemma {:induction false} TouchingAre(db: Db, conflicts: seq<nat>, cited: seq<nat>)
    ensures forall c :: c in Touching(db, conflicts, cited) <==>
              && c in conflicts && c < |db.contradictions| && db.contradictions[c].status == Confirmed
              && (db.contradictions[c].a in cited || db.contradictions[c].b in cited)
  {
    if conflicts != [] {
      var n := |conflicts| - 1;
      TouchingAre(db, conflicts[..n], cited);
      assert conflicts == conflicts[..n] + [conflicts[n]];
    }
  }

  /** An entry of the report and conclusion `c` of the tables agree. */
  ghost predicate EntryMatches(db: Db, after: Db, e: Entry, c: nat, q: Inputs)
    requires c < |after.conclusions|
  {
    && e.conclusion == c && e.cited == EvidenceOf(after.conclusionEvidence, c)
    && e.humanReview == after.conclusions[c].humanReview && EntryOk(db, e, q)
  }

  /** Report and tables agree, entry by entry. */
  ghost predicate Reported(db: Db, st: Writing, q: Inputs) {
    && |st.report| == |st.db.conclusions| - |db.conclusions|
    && (forall k | 0 <= k < |st.report| :: EntryMatches(db, st.db, st.report[k], |db.conclusions| + k, q))
  }

  lemma {:induction false} WriteAllReports(db: Db, q: Inputs, drafts: seq<Proposal>)
    requires RowsOk(db)
    ensures Reported(db, WriteAll(Writing(db, []), q, drafts), q)
  {
    if drafts != [] {
      var n := |drafts| - 1;
      WriteAllReports(db, q, drafts[..n]);
      WriteAllRows(db, q, drafts[..n]);
      WriteOneReports(db, WriteAll(Writing(db, []), q, drafts[..n]), q, drafts[n]);
    }
  }

  lemma WriteOneReports(db: Db, b: Writing, q: Inputs, p: Proposal)
    requires Extends(db, b.db) && RowsOk(b.db) && Reported(db, b, q)
    ensures Reported(db, WriteOne(b, q, p), q)
  {
    var r := WriteOne(b, q, p);
    if r != b {
      forall k | 0 <= k < |r.report| ensures EntryMatches(db, r.db, r.report[k], |db.conclusions| + k, q) {
        WriteOneEntry(db, b, q, p, k);
      }
    }
  }

  lemma WriteOneEntry(db: Db, b: Writing, q: Inputs, p: Proposal, k: nat)
    requires Extends(db, b.db) && RowsOk(b.db) && Reported(db, b, q)
    requires WriteOne(b, q, p) != b && k <= |b.report|
    ensures var r := WriteOne(b, q, p); EntryMatches(db, r.db, r.report[k], |db.conclusions| + k, q)
  {
    var cited := CitedAmong(p.ids, VerifiedAmong(b.db, q.statements));
    if k < |b.report| {
      EarlierEntry(db, b.db, WriteOne(b, q, p).db, b.report[k], |db.conclusions| + k, cited, q);
    } else {
      NewEntry(db, b, q, p);
    }
  }

  lemma EarlierEntry(db: Db, before: Db, after: Db, e: Entry, c: nat, cited: seq<nat>, q: Inputs)
    requires c < |before.conclusions| && EntryMatches(db, before, e, c, q) && before.conclusions <= after.conclusions
    requires after.conclusionEvidence == before.conclusionEvidence + EvidenceRows(|before.conclusions|, cited)
    ensures EntryMatches(db, after, e, c, q)
  {
    EvidenceAppend(before.conclusionEvidence, |before.conclusions|, cited, c);
    assert EvidenceOf(before.conclusionEvidence, c) + [] == EvidenceOf(before.conclusionEvidence, c);
  }

  lemma NewEntry(db: Db, b: Writing, q: Inputs, p: Proposal)
    requires db.statements == b.db.statements && db.links == b.db.links && db.contradictions == b.db.contradictions
    requires RowsOk(b.db) && WriteOne(b, q, p) != b
    ensures var r := WriteOne(b, q, p); EntryMatches(db, r.db, r.report[|b.report|], |b.db.conclusions|, q)
  {
    var r, row, cited := WriteOne(b, q, p), |b.db.conclusions|, CitedAmong(p.ids, VerifiedAmong(b.db, q.statements));
    var entry := r.report[|b.report|];
    assert entry == WriteOne(Writing(b.db, []), q, p).report[0];
    NewEntryOk(b.db, q, p);
    EntryOkSame(db, b.db, entry, q);
    EvidenceAppend(b.db.conclusionEvidence, row, cited, row);
    NoEvidenceYet(b.db.conclusionEvidence, row);
    assert [] + cited == cited;
  }

  lemma EntryOkSame(a: Db, b: Db, e: Entry, q: Inputs)
    requires a.statements == b.statements && a.links == b.links && a.contradictions == b.contradictions
          && EntryOk(b, e, q)
    ensures EntryOk(a, e, q)
  {
  }

  lemma NewEntryOk(db: Db, q: Inputs, p: Proposal)
    ensures var cited := CitedAmong(p.ids, VerifiedAmong(db, q.statements));
      var report := WriteOne(Writing(db, []), q, p).report;
      cited != [] ==> EntryOk(db, report[0], q)
  {
    var cited := CitedAmong(p.ids, VerifiedAmong(db, q.statements));
    VerifiedAre(db, q.statements);
    CitedAre(p.ids, VerifiedAmong(db, q.statements));
    TouchingAre(db, q.conflicts, cited);
    forall i | 0 <= i < |cited| ensures cited[i] < |db.statements| {
      assert cited[i] in cited;
    }
  }

  /**
   A returned report has one entry per new conclusion, citing exactly its evidence rows, with the
   newest verify score of each cited statement and a warning for exactly the confirmed contradictions it touches.
   */
  lemma ReportMatchesRows(db: Db, q: Inputs, reply: Option<seq<Proposal>>, commit: bool)
    requires ConclusionsOk(db)
    ensures var (db', report) := GenerateRun(db, q, reply, commit);
      report.Some? ==> Reported(db, Writing(db', report.value), q)
  {
    if reply.Some? {
      WriteAllReports(db, q, reply.value);
    }
  }

  predicate Ascending(from: seq<nat>) {
    forall i, j | 0 <= i < j < |from| :: from[i] < from[j]
  }

  /** `from` lists the drafts with a known citation. */
  ghost predicate Citing(drafts: seq<Proposal>, known: seq<nat>, from: seq<nat>) {
    forall d: nat | d < |drafts| :: d in from <==> exists s | s in drafts[d].ids :: s in known
  }

  /**
   `from[k]` is the draft that entry `k` of the report came from: an order-preserving map onto the drafts
   with a known citation.
   */
  ghost predicate DrawnFrom(db: Db, naming: Naming, report: seq<Entry>, drafts: seq<Proposal>, known: seq<nat>,
                            from: seq<nat>) {
    Ascending(from) && Citing(drafts, known, from) && AllDrawn(db, naming, report, drafts, known, from)
  }

  ghost predicate AllDrawn(db: Db, naming: Naming, report: seq<Entry>, drafts: seq<Proposal>, known: seq<nat>,
                           from: seq<nat>) {
    |from| == |report| && forall k | 0 <= k < |report| :: EntryAt(db, naming, report[k], drafts, from[k], known)
  }

  ghost predicate EntryAt(db: Db, naming: Naming, e: Entry, drafts: seq<Proposal>, d: nat, known: seq<nat>) {
    d < |drafts| && EntryOf(db, naming, e, drafts[d], known)
  }

  /** The positions `at` of `ids` are those of known statements, and `cited` reads them off in order. */
  ghost predicate PicksAt(cited: seq<nat>, ids: seq<nat>, known: seq<nat>, at: seq<nat>) {
    && |at| == |cited| && Ascending(at)
    && (forall i | 0 <= i < |at| :: at[i] < |ids| && cited[i] == ids[at[i]])
    && (forall d: nat | d < |ids| :: d in at <==> ids[d] in known)
  }

  /**
   The entry cites the known statements of the draft in its order, each as often as the draft does,
   and nothing else.  It asks for review exactly if the draft or its keywords do, and is one-sided
   exactly if the draft is or no two of its statements come from different named domains.
   */
  ghost predicate EntryOf(db: Db, naming: Naming, e: Entry, p: Proposal, known: seq<nat>) {
    && (forall s :: multiset(e.cited)[s] == if s in known then multiset(p.ids)[s] else 0)
    && (exists at :: PicksAt(e.cited, p.ids, known, at))
    && (e.humanReview <==> p.keyword || p.highStakes)
    && (e.oneSided <==> p.oneSided || !TwoDomains(db, e.cited, naming))
  }

  lemma {:induction false} CitedInOrder(ids: seq<nat>, known: seq<nat>) returns (at: seq<nat>)
    ensures PicksAt(CitedAmong(ids, known), ids, known, at)
  {
    at := [];
    if ids != [] {
      var n := |ids| - 1;
      var before := CitedInOrder(ids[..n], known);
      PicksSnoc(CitedAmong(ids[..n], known), ids[..n], ids[n], known, before);
      assert ids == ids[..n] + [ids[n]];
      at := if ids[n] in known then before + [n] else before;
    }
  }

  lemma PicksSnoc(cited: seq<nat>, ids: seq<nat>, id: nat, known: seq<nat>, at: seq<nat>)
    requires PicksAt(cited, ids, known, at)
    ensures id !in known ==> PicksAt(cited, ids + [id], known, at)
    ensures id in known ==> PicksAt(cited + [id], ids + [id], known, at + [|ids|])
  {
    var all, more := ids + [id], at + [|ids|];
    assert all[|ids|] == id && more[|at|] == |ids|;
    forall d: nat | d < |ids| ensures all[d] == ids[d] && (d in at <==> d in more) {
    }
    forall i | 0 <= i < |at| ensures at[i] in at {
    }
  }

  lemma {:induction false} CitedOften(ids: seq<nat>, known: seq<nat>)
    ensures forall s :: multiset(CitedAmong(ids, known))[s] == if s in known then multiset(ids)[s] else 0
  {
    if ids != [] {
      var n := |ids| - 1;
      CitedOften(ids[..n], known);
      assert ids == ids[..n] + [ids[n]];
    }
  }

  lemma CitedFits(ids: seq<nat>, known: seq<nat>)
    ensures forall s :: multiset(CitedAmong(ids, known))[s] == if s in known then multiset(ids)[s] else 0
    ensures CitedAmong(ids, known) != [] <==> exists s | s in ids :: s in known
  {
    CitedAre(ids, known);
    CitedOften(ids, known);
    if CitedAmong(ids, known) != [] {
      assert CitedAmong(ids, known)[0] in CitedAmong(ids, known);
    }
  }

  lemma {:induction false} WriteAllDraws(db: Db, q: Inputs, drafts: seq<Proposal>) returns (from: seq<nat>)
    ensures SameKnowledge(db, WriteAll(Writing(db, []), q, drafts).db)
    ensures DrawnFrom(db, q.naming, WriteAll(Writing(db, []), q, drafts).report, drafts,
                      VerifiedAmong(db, q.statements), from)
  {
    from := [];
    if drafts != [] {
      var n := |drafts| - 1;
      var before := WriteAllDraws(db, q, drafts[..n]);
      var b := WriteAll(Writing(db, []), q, drafts[..n]);
      SameVerified(db, b.db, q.statements);
      from := DrawStep(db, b, q, drafts[n], drafts[..n], before);
      assert drafts == drafts[..n] + [drafts[n]];
    }
  }

  ghost predicate SameKnowledge(a: Db, b: Db) {
    b.statements == a.statements && b.passages == a.passages && b.sources == a.sources
  }

  lemma SameDomains(a: Db, b: Db, cited: seq<nat>, naming: Naming)
    requires SameKnowledge(a, b)
    ensures TwoDomains(a, cited, naming) == TwoDomains(b, cited, naming)
  {
    forall s ensures Findings.DomainFor(a, s, naming.domain) == Findings.DomainFor(b, s, naming.domain) {
    }
  }

  /** The entry a draft with a known citation becomes. */
  lemma EntryDrawn(db: Db, b: Writing, q: Inputs, p: Proposal)
    requires SameKnowledge(db, b.db)
    ensures var known, r := VerifiedAmong(b.db, q.statements), WriteOne(b, q, p);
      CitedAmong(p.ids, known) != [] ==>
        |r.report| == |b.report| + 1 && EntryOf(db, q.naming, r.report[|b.report|], p, known)
  {
    var known := VerifiedAmong(b.db, q.statements);
    var cited := CitedAmong(p.ids, known);
    CitedFits(p.ids, known);
    var at := CitedInOrder(p.ids, known);
    BalancedIff(b.db, cited, p.oneSided, q.naming);
    SameDomains(db, b.db, cited, q.naming);
  }

  /** One more draft. */
  lemma DrawStep(db: Db, b: Writing, q: Inputs, p: Proposal, drafts: seq<Proposal>, before: seq<nat>)
    returns (from: seq<nat>)
    requires SameKnowledge(db, b.db)
    requires DrawnFrom(db, q.naming, b.report, drafts, VerifiedAmong(b.db, q.statements), before)
    ensures SameKnowledge(db, WriteOne(b, q, p).db)
    ensures DrawnFrom(db, q.naming, WriteOne(b, q, p).report, drafts + [p], VerifiedAmong(b.db, q.statements), from)
  {
    var known := VerifiedAmong(b.db, q.statements);
    CitedFits(p.ids, known);
    if CitedAmong(p.ids, known) == [] {
      from := before;
      DrawnSnoc(db, q.naming, b.report, drafts, p, known, before);
    } else {
      from := before + [|drafts|];
      EntryDrawn(db, b, q, p);
      var e := WriteOne(b, q, p).report[|b.report|];
      DrawnMore(db, q.naming, b.report, e, drafts, p, known, before);
      assert WriteOne(b, q, p).report == b.report + [e];
    }
  }

  lemma DrawnSnoc(db: Db, naming: Naming, report: seq<Entry>, drafts: seq<Proposal>, p: Proposal, known: seq<nat>,
                  from: seq<nat>)
    requires DrawnFrom(db, naming, report, drafts, known, from)
    ensures (forall s | s in p.ids :: s !in known) ==> DrawnFrom(db, naming, report, drafts + [p], known, from)
  {
    var all := drafts + [p];
    assert forall d | 0 <= d < |drafts| :: all[d] == drafts[d];
    assert forall k | 0 <= k < |from| :: from[k] in from;
  }

  lemma CitingMore(drafts: seq<Proposal>, p: Proposal, known: seq<nat>, from: seq<nat>)
    requires Citing(drafts, known, from) && exists s | s in p.ids :: s in known
    ensures Citing(drafts + [p], known, from + [|drafts|])
  {
    var all, more := drafts + [p], from + [|drafts|];
    forall d: nat | d < |all| ensures d in more <==> exists s | s in all[d].ids :: s in known {
      if d < |drafts| {
        assert all[d] == drafts[d];
      } else {
        assert more[|from|] == d;
      }
    }
  }

  lemma DrawnMore(db: Db, naming: Naming, report: seq<Entry>, e: Entry, drafts: seq<Proposal>, p: Proposal,
                  known: seq<nat>, from: seq<nat>)
    requires DrawnFrom(db, naming, report, drafts, known, from) && EntryOf(db, naming, e, p, known)
    requires exists s | s in p.ids :: s in known
    ensures DrawnFrom(db, naming, report + [e], drafts + [p], known, from + [|drafts|])
  {
    CitingMore(drafts, p, known, from);
    AscendingMore(from, |drafts|);
    AllDrawnMore(db, naming, report, e, drafts, p, known, from);
  }

  lemma AscendingMore(from: seq<nat>, n: nat)
    requires Ascending(from) && forall k | 0 <= k < |from| :: from[k] < n
    ensures Ascending(from + [n])
  {
  }

  lemma AllDrawnMore(db: Db, naming: Naming, report: seq<Entry>, e: Entry, drafts: seq<Proposal>, p: Proposal,
                     known: seq<nat>, from: seq<nat>)
    requires AllDrawn(db, naming, report, drafts, known, from) && EntryOf(db, naming, e, p, known)
    ensures AllDrawn(db, naming, report + [e], drafts + [p], known, from + [|drafts|])
  {
    var entries, all, more := report + [e], drafts + [p], from + [|drafts|];
    assert all[|drafts|] == p;
    forall k | 0 <= k < |entries| ensures EntryAt(db, naming, entries[k], all, more[k], known) {
      if k < |report| {
        EntryMore(db, naming, report[k], drafts, p, from[k], known);
      }
    }
  }

  lemma EntryMore(db: Db, naming: Naming, e: Entry, drafts: seq<Proposal>, p: Proposal, d: nat, known: seq<nat>)
    requires EntryAt(db, naming, e, drafts, d, known)
    ensures EntryAt(db, naming, e, drafts + [p], d, known)
  {
    assert (drafts + [p])[d] == drafts[d];
  }

  /**
   Every draft with a known citation becomes a conclusion, in the order of the drafts, citing just the
   known ones; the others are skipped.
   */
  lemma EveryDraftConcluded(db: Db, q: Inputs, drafts: seq<Proposal>, commit: bool) returns (from: seq<nat>)
    ensures var report := GenerateRun(db, q, Some(drafts), commit).1;
      report.Some? ==> DrawnFrom(db, q.naming, report.value, drafts, VerifiedAmong(db, q.statements), from)
  {
    from := WriteAllDraws(db, q, drafts);
  }
}
