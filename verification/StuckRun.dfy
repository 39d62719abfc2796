/** What the verify stage does on the states the system gets to, one of which it never gets past. */
module StuckRun {
  import opened Prelude
  import opened Knowledge
  import opened Gate
  import opened Provenance
  import VerifyStage

  /** A statement that is not blank and yet has no `[a-z0-9]+` token, as text in another script. */
  const WORDLESS := Prose({}, false)

  /** One source with one passage in such a script, and a statement drawn from it. */
  function Drawn(uri: string): seq<Event> {
    [] + [Collected(0, uri)] + [Chunked(0, [WORDLESS])] + [Extracted(0, Some([WORDLESS]), true, 0)]
  }

  lemma AfterDrawn(uri: string)
    ensures var db := History(Drawn(uri));
      && db.statements == [Statement(0, 0, WORDLESS, Draft)] && db.passages == [Passage(0, WORDLESS)]
      && |db.sources| == 1 && db.sources[0].run == 0
  {
    HistorySnoc([], Collected(0, uri));
    HistorySnoc([] + [Collected(0, uri)], Chunked(0, [WORDLESS]));
    HistorySnoc([] + [Collected(0, uri)] + [Chunked(0, [WORDLESS])], Extracted(0, Some([WORDLESS]), true, 0));
  }

  /** The system gets to such a state, and from it no number of resumes gets the stage to its end. */
  lemma StuckIsReachable(uri: string, replies: seq<nat -> VerifyStage.Reply>, last: nat -> VerifyStage.Reply)
    ensures VerifyStage.Stuck(History(Drawn(uri)), 0, 0)
    ensures VerifyStage.StageRun(VerifyStage.Attempts(History(Drawn(uri)), 0, replies), 0, last).1.None?
  {
    AfterDrawn(uri);
    var db := History(Drawn(uri));
    assert VerifyStage.DraftsBelow(db, 0, 0) == [];
    VerifyStage.StuckForever(db, 0, 0, replies, last);
  }

  /** In every reachable state a statement's passage belongs to a source of its run, so no draft is passed over. */
  lemma DraftsAreKnown(events: seq<Event>, run: nat, s: nat)
    requires VerifyStage.DraftOf(History(events), run, s)
    ensures VerifyStage.PassageKnown(History(events), run, s)
  {
    HistoryKeeps(events);
    var db := History(events);
    assert db.statements[s] in db.statements;
    assert db.passages[db.statements[s].passage] in db.passages;
  }

  /**
   In every reachable state a verify stage that returns has decided each of the first 25 drafts of the
   run, verified exactly if its passage covers it and its judge supports it, and reports how many.
   */
  lemma ReachableStageDecides(events: seq<Event>, run: nat, reply: nat -> VerifyStage.Reply)
    requires VerifyStage.StageRun(History(events), run, reply).1.Some?
    ensures var db, ids := History(events), VerifyStage.Chosen(History(events), run);
      var (after, count) := VerifyStage.StageRun(db, run, reply);
      && count == Some(|ids|) && |after.statements| == |db.statements|
      && (forall k | 0 <= k < |ids| ::
            && ids[k] < |db.statements| && db.statements[ids[k]].passage < |db.passages|
            && (after.statements[ids[k]].status == Verified <==>
                  VerifyStage.Covered(db, ids[k]) && reply(k).judge == Supports)
            && after.statements[ids[k]].status != Draft)
      && (forall s | 0 <= s < |db.statements| && s !in ids :: after.statements[s] == db.statements[s])
  {
    var db := History(events);
    var ids := VerifyStage.Chosen(db, run);
    var m := VerifyStage.StageDecides(db, run, reply);
    assert ids[..m] == ids;
    VerifyStage.DraftsAre(db, run, |db.statements|);
    forall k | 0 <= k < |ids| ensures VerifyStage.PassageKnown(db, run, ids[k]) {
      assert ids[k] in ids;
      DraftsAreKnown(events, run, ids[k]);
    }
    AllKnown(db, run, ids);
  }

  lemma AllKnown(db: Db, run: nat, ids: seq<nat>)
    requires forall k | 0 <= k < |ids| :: VerifyStage.PassageKnown(db, run, ids[k])
    ensures |VerifyStage.KnownAmong(db, run, ids)| == |ids|
  {
    if ids == [] {
      assert VerifyStage.KnownAmong(db, run, ids) == {};
    } else {
      var front, n := ids[..|ids| - 1], |ids| - 1;
      assert ids == front + [ids[n]];
      forall k | 0 <= k < n ensures VerifyStage.PassageKnown(db, run, front[k]) {
        assert front[k] == ids[k];
      }
      AllKnown(db, run, front);
      VerifyStage.KnownSnoc(db, run, front, ids[n]);
    }
  }
}
