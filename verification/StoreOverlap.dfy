/**
 Exactly which tables overlapping store attempts keep in order, when the database may show the two
 reads of an attempt different states.
 */
module StoreOverlap {
  import opened Prelude
  import opened Ingest
  import opened IngestProofs
  import opened StoreRace
  import Chunker

  predicate FetchedAt(db: Db, i: nat) {
    i < |db.sources| && db.sources[i].status == Fetched
  }

  function TextOf(db: Db, i: nat, norm: Normalizer): Option<string> {
    if i < |db.sources| && i < |db.replies| then norm(db.sources[i].kind, db.replies[i]) else None
  }

  /** The digests of the chunks a source would be stored with. */
  function SourceDigests(db: Db, i: nat, norm: Normalizer, hash: Digest): set<string> {
    match TextOf(db, i, norm)
    case None => {}
    case Some(text) => ChunkDigests(text, hash)
  }

  /** An attempt gets to the source: every fetched source up to it normalizes. */
  ghost predicate Reached(db: Db, i: nat, norm: Normalizer) {
    && FetchedAt(db, i)
    && forall t: nat | t <= i && FetchedAt(db, t) :: TextOf(db, t, norm).Some?
  }

  /** No two sources that an attempt gets to have a chunk digest in common. */
  ghost predicate NoneShare(db: Db, norm: Normalizer, hash: Digest) {
    forall i: nat, j: nat | i < j && Reached(db, i, norm) && Reached(db, j, norm) ::
      SourceDigests(db, i, norm, hash) !! SourceDigests(db, j, norm, hash)
  }

  // ------------------------------------------------------------- what a schedule keeps

  /** `cur` comes from `db` by storing some of its fetched sources. */
  ghost predicate Descends(db: Db, cur: Db) {
    OnlyMarked(db, cur) && cur.replies == db.replies
  }

  /** The source has been stored since. */
  predicate Done(db: Db, cur: Db, i: nat) {
    FetchedAt(db, i) && i < |cur.sources| && cur.sources[i].status == Normalized
  }

  /** The jobs are fetched sources of `db` in order, and all that are not stored yet. */
  ghost predicate Listed(db: Db, cur: Db, jobs: seq<Job>) {
    && Increasing(jobs)
    && (forall job | job in jobs :: JobFits(db.sources, job))
    && (forall i: nat | FetchedAt(db, i) && !Done(db, cur, i) :: i in Ids(jobs))
  }

  ghost predicate FromDone(db: Db, cur: Db, stored: set<string>, norm: Normalizer, hash: Digest) {
    forall d | d in stored :: exists i: nat | Done(db, cur, i) :: d in SourceDigests(db, i, norm, hash)
  }

  ghost predicate WorkerFits(db: Db, cur: Db, w: Phase, norm: Normalizer, hash: Digest) {
    match w
    case ReadSources => true
    case ReadDigests(jobs) => Listed(db, cur, jobs)
    case Committing(jobs, stored, k) =>
      && Listed(db, cur, jobs) && FromDone(db, cur, stored, norm, hash)
      && forall x | 0 <= x < k && x < |jobs| :: Done(db, cur, jobs[x].id)
    case Gone => true
  }

  ghost predicate TablesFit(db: Db, cur: Db, norm: Normalizer, hash: Digest) {
    && SourcesOk(cur) && PassagesOk(cur, norm, hash) && Descends(db, cur)
    && forall i: nat | Done(db, cur, i) :: Reached(db, i, norm)
  }

  ghost predicate WorldFits(db: Db, world: World, norm: Normalizer, hash: Digest) {
    && TablesFit(db, world.db, norm, hash)
    && forall k | 0 <= k < |world.workers| :: WorkerFits(db, world.db, world.workers[k], norm, hash)
  }

  lemma DescendsOn(db: Db, a: Db, b: Db)
    requires Descends(db, a) && OnlyMarked(a, b) && b.replies == a.replies
    ensures Descends(db, b)
    ensures forall i: nat | Done(db, a, i) :: Done(db, b, i)
  {
  }

  lemma WorkerStillFits(db: Db, a: Db, b: Db, w: Phase, norm: Normalizer, hash: Digest)
    requires WorkerFits(db, a, w, norm, hash) && forall i: nat | Done(db, a, i) :: Done(db, b, i)
    ensures WorkerFits(db, b, w, norm, hash)
  {
    if w.Committing? {
      StillFromDone(db, a, b, w.stored, norm, hash);
    }
  }

  lemma StillFromDone(db: Db, a: Db, b: Db, stored: set<string>, norm: Normalizer, hash: Digest)
    requires FromDone(db, a, stored, norm, hash) && forall i: nat | Done(db, a, i) :: Done(db, b, i)
    ensures FromDone(db, b, stored, norm, hash)
  {
    forall d | d in stored ensures exists i: nat | Done(db, b, i) :: d in SourceDigests(db, i, norm, hash) {
      var i: nat :| Done(db, a, i) && d in SourceDigests(db, i, norm, hash);
      assert Done(db, b, i);
    }
  }

  /** The first read. */
  lemma SourcesRead(db: Db, cur: Db)
    requires Descends(db, cur)
    ensures Listed(db, cur, FetchedJobs(cur.sources))
  {
    JobsFit(cur.sources);
    JobsOrdered(cur.sources);
    forall i: nat | FetchedAt(db, i) && !Done(db, cur, i) ensures i in Ids(FetchedJobs(cur.sources)) {
      JobsCover(cur.sources, i);
    }
  }

  /** A passage of a stored source has the digest of one of its chunks. */
  lemma PassageDigest(db: Db, cur: Db, key: (nat, nat), norm: Normalizer, hash: Digest)
    requires PassagesOk(cur, norm, hash) && Descends(db, cur) && key in cur.passages
    ensures cur.passages[key].digest in SourceDigests(db, key.0, norm, hash)
    ensures FetchedAt(db, key.0) ==> Done(db, cur, key.0)
  {
    assert Assembled(cur, key.0, norm, hash);
    assert (key.0, key.1) == key;
    var chunks := TextChunks(TextOf(db, key.0, norm).value);
    assert cur.passages[key] == ToPassage(chunks[key.1], hash);
  }

  /** The second read. */
  lemma DigestsRead(db: Db, cur: Db, jobs: seq<Job>, norm: Normalizer, hash: Digest)
    requires PassagesOk(cur, norm, hash) && Descends(db, cur) && Listed(db, cur, jobs)
    ensures FromDone(db, cur, StoredDigests(cur, jobs), norm, hash)
  {
    forall d | d in StoredDigests(cur, jobs)
      ensures exists i: nat | Done(db, cur, i) :: d in SourceDigests(db, i, norm, hash)
    {
      var key, x :| key in cur.passages && 0 <= x < |jobs| && jobs[x].id == key.0 && cur.passages[key].digest == d;
      assert jobs[x] in jobs;
      PassageDigest(db, cur, key, norm, hash);
    }
  }

  /** The source of a job that gets through is reached: the fetched sources before it are stored. */
  lemma JobReached(db: Db, cur: Db, jobs: seq<Job>, k: nat, norm: Normalizer)
    requires k < |jobs| && Listed(db, cur, jobs) && TextOf(db, jobs[k].id, norm).Some?
    requires forall x | 0 <= x < k :: Done(db, cur, jobs[x].id)
    requires forall i: nat | Done(db, cur, i) :: Reached(db, i, norm)
    ensures Reached(db, jobs[k].id, norm)
  {
    assert jobs[k] in jobs;
    forall t: nat | t <= jobs[k].id && FetchedAt(db, t) ensures TextOf(db, t, norm).Some? {
      if !Done(db, cur, t) {
        var x :| 0 <= x < |jobs| && jobs[x].id == t;
        assert x <= k;
      }
    }
  }

  /** If nothing of the text is in the snapshot, the snapshot does not matter. */
  lemma SnapshotIdle(st: Storing, job: Job, stored: set<string>, text: string, norm: Normalizer, hash: Digest)
    requires BlobOf(st.db, job.rawRef).Some? && norm(job.kind, BlobOf(st.db, job.rawRef).value) == Some(text)
    requires ChunkDigests(text, hash) !! stored
    ensures StoreOne(st, job, stored, norm, hash) == StoreOne(st, job, {}, norm, hash)
  {
    SameRows(job.id, text, stored, hash);
  }

  lemma SameRows(id: nat, text: string, stored: set<string>, hash: Digest)
    requires ChunkDigests(text, hash) !! stored
    ensures NewRows(id, TextChunks(text), stored, hash) == NewRows(id, TextChunks(text), {}, hash)
  {
    var chunks := TextChunks(text);
    forall k: nat | k < |chunks| ensures hash(chunks[k].text) !in stored {
      assert hash(chunks[k].text) in ChunkDigests(text, hash);
    }
    NewRowsAre(id, chunks, stored, hash);
    NewRowsAre(id, chunks, {}, hash);
  }

  /** What the tables of `cur` say about a job of `db`. */
  lemma JobStands(db: Db, cur: Db, job: Job, norm: Normalizer)
    requires SourcesOk(cur) && Descends(db, cur) && JobFits(db.sources, job)
    ensures JobStill(cur, job) && BlobOf(cur, job.rawRef) == Some(db.replies[job.id])
    ensures job.id < |db.replies| && TextOf(db, job.id, norm) == norm(job.kind, db.replies[job.id])
    ensures FetchedAt(cur, job.id) || Done(db, cur, job.id)
  {
  }

  /** A commit for a source not stored yet, which the attempt gets to: the snapshot has none of its digests. */
  lemma FreshCommit(db: Db, cur: Db, job: Job, stored: set<string>, norm: Normalizer, hash: Digest)
    requires TablesFit(db, cur, norm, hash) && NoneShare(db, norm, hash) && FromDone(db, cur, stored, norm, hash)
    requires JobFits(db.sources, job) && !Done(db, cur, job.id) && Reached(db, job.id, norm)
    ensures StoreOne(Storing(cur, 0, 1, true), job, stored, norm, hash)
         == StoreOne(Storing(cur, 0, 1, true), job, {}, norm, hash)
  {
    JobStands(db, cur, job, norm);
    var text := TextOf(db, job.id, norm).value;
    forall d | d in stored ensures d !in ChunkDigests(text, hash) {
      var i: nat :| Done(db, cur, i) && d in SourceDigests(db, i, norm, hash);
      assert Reached(db, i, norm) && i != job.id;
      if i < job.id {
        assert SourceDigests(db, i, norm, hash) !! SourceDigests(db, job.id, norm, hash);
      } else {
        assert SourceDigests(db, job.id, norm, hash) !! SourceDigests(db, i, norm, hash);
      }
    }
    SnapshotIdle(Storing(cur, 0, 1, true), job, stored, text, norm, hash);
  }

  /** Any commit keeps the tables and marks at most its own source, which it has reached. */
  lemma CommitFits(db: Db, cur: Db, jobs: seq<Job>, stored: set<string>, k: nat, norm: Normalizer, hash: Digest)
    requires TablesFit(db, cur, norm, hash) && NoneShare(db, norm, hash)
    requires k < |jobs| && WorkerFits(db, cur, Committing(jobs, stored, k), norm, hash)
    ensures var r := StoreOne(Storing(cur, 0, 1, true), jobs[k], stored, norm, hash);
      && TablesFit(db, r.db, norm, hash)
      && (forall i: nat | Done(db, cur, i) :: Done(db, r.db, i))
      && (r.live ==> Done(db, r.db, jobs[k].id))
  {
    var job, st := jobs[k], Storing(cur, 0, 1, true);
    assert job in jobs;
    JobStands(db, cur, job, norm);
    if Done(db, cur, job.id) {
      assert Assembled(cur, job.id, norm, hash);
      AgainChangesNothing(st, job, stored, norm, hash);
    } else if TextOf(db, job.id, norm).None? {
      assert !StoreOne(st, job, stored, norm, hash).live;
    } else {
      JobReached(db, cur, jobs, k, norm);
      FreshCommit(db, cur, job, stored, norm, hash);
      FreshKeeps(db, cur, job, norm, hash);
    }
  }

  lemma FreshKeeps(db: Db, cur: Db, job: Job, norm: Normalizer, hash: Digest)
    requires TablesFit(db, cur, norm, hash)
    requires JobFits(db.sources, job) && FetchedAt(cur, job.id) && Reached(db, job.id, norm)
    ensures var r := StoreOne(Storing(cur, 0, 1, true), job, {}, norm, hash);
      && TablesFit(db, r.db, norm, hash)
      && (forall i: nat | Done(db, cur, i) :: Done(db, r.db, i))
      && (r.live ==> Done(db, r.db, job.id))
  {
    var st := Storing(cur, 0, 1, true);
    JobStands(db, cur, job, norm);
    CommitKeeps(cur, job, norm, hash);
    StoreOneSources(st, job, norm, hash);
    DescendsOn(db, cur, StoreOne(st, job, {}, norm, hash).db);
  }

  lemma NextJob(db: Db, cur: Db, jobs: seq<Job>, stored: set<string>, k: nat, norm: Normalizer, hash: Digest)
    requires k < |jobs| && WorkerFits(db, cur, Committing(jobs, stored, k), norm, hash) && Done(db, cur, jobs[k].id)
    ensures WorkerFits(db, cur, Committing(jobs, stored, k + 1), norm, hash)
  {
  }

  lemma CommitAdvance(db: Db, cur: Db, jobs: seq<Job>, stored: set<string>, k: nat, norm: Normalizer, hash: Digest)
    requires TablesFit(db, cur, norm, hash) && NoneShare(db, norm, hash)
    requires k < |jobs| && WorkerFits(db, cur, Committing(jobs, stored, k), norm, hash)
    ensures var r := StoreOne(Storing(cur, 0, 1, true), jobs[k], stored, norm, hash);
      r.live ==> AdvancedTo(db, cur, (r.db, Committing(jobs, stored, k + 1)), norm, hash)
  {
    CommitFits(db, cur, jobs, stored, k, norm, hash);
    var next := StoreOne(Storing(cur, 0, 1, true), jobs[k], stored, norm, hash).db;
    WorkerStillFits(db, cur, next, Committing(jobs, stored, k), norm, hash);
    if Done(db, next, jobs[k].id) {
      NextJob(db, next, jobs, stored, k, norm, hash);
    }
  }

  ghost predicate AdvancedTo(db: Db, cur: Db, next: (Db, Phase), norm: Normalizer, hash: Digest) {
    && TablesFit(db, next.0, norm, hash) && WorkerFits(db, next.0, next.1, norm, hash)
    && forall i: nat | Done(db, cur, i) :: Done(db, next.0, i)
  }

  /** One access of one attempt. */
  lemma AdvanceFits(db: Db, cur: Db, w: Phase, norm: Normalizer, hash: Digest)
    requires TablesFit(db, cur, norm, hash) && NoneShare(db, norm, hash) && WorkerFits(db, cur, w, norm, hash)
    ensures AdvancedTo(db, cur, Advance(cur, w, false, norm, hash), norm, hash)
  {
    match w
    case ReadSources => SourcesRead(db, cur);
    case ReadDigests(jobs) => DigestsRead(db, cur, jobs, norm, hash);
    case Committing(jobs, stored, k) =>
      if k < |jobs| {
        CommitAdvance(db, cur, jobs, stored, k, norm, hash);
      }
    case Gone =>
  }

  lemma DescendsFromItself(db: Db, norm: Normalizer, hash: Digest)
    requires SourcesOk(db) && PassagesOk(db, norm, hash)
    ensures TablesFit(db, db, norm, hash)
  {
  }

  /** If no two reached sources share a chunk, every schedule keeps the tables. */
  lemma {:induction false} SchedulesFit(db: Db, moves: seq<Move>, norm: Normalizer, hash: Digest)
    requires SourcesOk(db) && PassagesOk(db, norm, hash) && NoneShare(db, norm, hash)
    ensures WorldFits(db, PlayMoves(db, moves, false, norm, hash), norm, hash)
  {
    if moves == [] {
      DescendsFromItself(db, norm, hash);
    } else {
      var n := |moves| - 1;
      SchedulesFit(db, moves[..n], norm, hash);
      MoveFits(db, PlayMoves(db, moves[..n], false, norm, hash), moves[n], norm, hash);
    }
  }

  lemma MoveFits(db: Db, world: World, move: Move, norm: Normalizer, hash: Digest)
    requires WorldFits(db, world, norm, hash) && NoneShare(db, norm, hash)
    ensures WorldFits(db, Perform(world, move, false, norm, hash), norm, hash)
  {
    if move.Act? && move.who < |world.workers| {
      AdvanceFits(db, world.db, world.workers[move.who], norm, hash);
      var after := Perform(world, move, false, norm, hash);
      forall k | 0 <= k < |after.workers| ensures WorkerFits(db, after.db, after.workers[k], norm, hash) {
        if k != move.who {
          WorkerStillFits(db, world.db, after.db, world.workers[k], norm, hash);
        }
      }
    }
  }
}
