/** A history, started from nothing, in which a forced check takes the ground from under a conclusion. */
module Demotion {
  import opened Prelude
  import opened Knowledge
  import opened Gate
  import opened Provenance
  import Report

  const SKY := Prose({"sky"}, false)

  /** One source with one passage, and a statement drawn from it. */
  function Drawn(uri: string): seq<Event> {
    [] + [Collected(0, uri)] + [Chunked(0, [SKY])] + [Extracted(0, Some([SKY]), true, 0)]
  }

  const CHECK := Checked(0, Supports, true, false, 0)
  const RECHECK := Checked(0, Denies, true, true, 0)

  /** The draft that cites the statement once. */
  const DRAFT := Report.Proposal([0], false, false, false)

  function Conclude(naming: Report.Naming): Event {
    Synthesized(0, _ => true, [], naming, Some([DRAFT]), true)
  }

  lemma AfterDrawn(uri: string)
    ensures var db := History(Drawn(uri));
      && db.statements == [Statement(0, 0, SKY, Draft)] && db.passages == [Passage(0, SKY)]
      && db.conclusions == [] && db.conclusionEvidence == []
  {
    HistorySnoc([], Collected(0, uri));
    HistorySnoc([] + [Collected(0, uri)], Chunked(0, [SKY]));
    HistorySnoc([] + [Collected(0, uri)] + [Chunked(0, [SKY])], Extracted(0, Some([SKY]), true, 0));
  }

  lemma AfterCheck(uri: string)
    ensures var db := History(Drawn(uri) + [CHECK]);
      && db.statements == [Statement(0, 0, SKY, Verified)] && db.passages == [Passage(0, SKY)]
      && db.conclusions == [] && db.conclusionEvidence == []
  {
    AfterDrawn(uri);
    HistorySnoc(Drawn(uri), CHECK);
    VerifiedIff(History(Drawn(uri)), 0, 0, 0, Supports, true, false, 0);
    assert SKY.tokens * SKY.tokens == SKY.tokens;
  }

  /** A report over one verified statement that one draft cites once. */
  lemma OneCitation(db: Db, q: Report.Inputs)
    requires |db.statements| > 0 && db.statements[0].status == Verified && q.statements == [0]
    requires db.conclusionEvidence == [] && db.conclusions == []
    ensures var after := Report.GenerateRun(db, q, Some([DRAFT]), true).0;
      after.statements == db.statements && after.passages == db.passages && after.conclusionEvidence == [(0, 0)]
  {
    assert [0][..0] == [];
    assert Report.VerifiedAmong(db, [0]) == [0];
    assert Report.CitedAmong([0], [0]) == [0];
    assert [DRAFT][..0] == [];
    assert Report.WriteAll(Report.Writing(db, []), q, [DRAFT][..0]) == Report.Writing(db, []);
    assert Report.EvidenceRows(0, [0]) == [(0, 0)];
    assert Report.WriteOne(Report.Writing(db, []), q, DRAFT).db.conclusionEvidence == [(0, 0)];
  }

  lemma PicksIt(db: Db, pick: nat -> bool)
    requires db.statements == [Statement(0, 0, SKY, Verified)] && pick(0)
    ensures Picked(db, 0, pick, 1) == [0]
  {
    assert Picked(db, 0, pick, 0) == [];
  }

  lemma ConcludeStep(db: Db, naming: Report.Naming)
    requires db.statements == [Statement(0, 0, SKY, Verified)] && db.conclusionEvidence == [] && db.conclusions == []
    ensures var after := Step(db, Conclude(naming));
      after.statements == db.statements && after.passages == db.passages && (0, 0) in after.conclusionEvidence
  {
    PicksIt(db, Conclude(naming).pick);
    OneCitation(db, Report.Inputs(0, [0], [], naming));
  }

  lemma AfterConclude(uri: string, naming: Report.Naming)
    ensures var db := History(Drawn(uri) + [CHECK] + [Conclude(naming)]);
      && db.statements == [Statement(0, 0, SKY, Verified)] && db.passages == [Passage(0, SKY)]
      && (0, 0) in db.conclusionEvidence
  {
    AfterCheck(uri);
    HistorySnoc(Drawn(uri) + [CHECK], Conclude(naming));
    ConcludeStep(History(Drawn(uri) + [CHECK]), naming);
  }

  /**
   After that the statement is checked again by force, and the judge denies it: a conclusion rests on a
   quarantined statement.
   */
  lemma DemotionIsReachable(uri: string, naming: Report.Naming)
    ensures !AllVerified(History(Drawn(uri) + [CHECK] + [Conclude(naming)] + [RECHECK]))
  {
    var events := Drawn(uri) + [CHECK] + [Conclude(naming)];
    AfterConclude(uri, naming);
    UnforcedKeeps(events);
    HistorySnoc(events, RECHECK);
    var db := History(events);
    assert Relied(db, 0) && Demotes(db, RECHECK);
    CheckedDemotes(db, RECHECK);
  }
}
