/** The schedule by which overlapping store attempts lose a passage, for any two reached sources that share a chunk. */
module StoreLoss {
  import opened Prelude
  import opened Ingest
  import opened IngestProofs
  import opened StoreRace
  import opened StoreOverlap
  import Chunker

  // ------------------------------------------------------------------ one attempt alone

  /** The tables after the first `m` commits of an attempt. */
  function CommitRun(db: Db, jobs: seq<Job>, stored: set<string>, m: nat, norm: Normalizer, hash: Digest): Db
    requires m <= |jobs|
  {
    if m == 0 then db
    else
      StoreOne(Storing(CommitRun(db, jobs, stored, m - 1, norm, hash), 0, 1, true),
               jobs[m - 1], stored, norm, hash).db
  }

  /** Those commits succeed. */
  predicate RunLive(db: Db, jobs: seq<Job>, stored: set<string>, m: nat, norm: Normalizer, hash: Digest)
    requires m <= |jobs|
  {
    m > 0 ==>
      && RunLive(db, jobs, stored, m - 1, norm, hash)
      && StoreOne(Storing(CommitRun(db, jobs, stored, m - 1, norm, hash), 0, 1, true),
                  jobs[m - 1], stored, norm, hash).live
  }

  /** `m` more accesses of one attempt. */
  function Acts(moves: seq<Move>, who: nat, m: nat): seq<Move> {
    if m == 0 then moves else Acts(moves, who, m - 1) + [Act(who)]
  }

  /** The attempts, with one of them at its commit `k`. */
  function At(ws: seq<Phase>, who: nat, jobs: seq<Job>, stored: set<string>, k: nat): seq<Phase>
    requires who < |ws|
  {
    ws[who := Committing(jobs, stored, k)]
  }

  lemma CommitAdvances(cur: Db, jobs: seq<Job>, stored: set<string>, k: nat, norm: Normalizer, hash: Digest)
    requires k < |jobs| && StoreOne(Storing(cur, 0, 1, true), jobs[k], stored, norm, hash).live
    ensures Advance(cur, Committing(jobs, stored, k), false, norm, hash)
         == (StoreOne(Storing(cur, 0, 1, true), jobs[k], stored, norm, hash).db, Committing(jobs, stored, k + 1))
  {
  }

  /** One commit that succeeds. */
  lemma CommitMove(cur: Db, ws: seq<Phase>, who: nat, jobs: seq<Job>, stored: set<string>, k: nat,
                   norm: Normalizer, hash: Digest)
    requires who < |ws| && k < |jobs|
    requires StoreOne(Storing(cur, 0, 1, true), jobs[k], stored, norm, hash).live
    ensures Perform(World(cur, At(ws, who, jobs, stored, k)), Act(who), false, norm, hash)
         == World(StoreOne(Storing(cur, 0, 1, true), jobs[k], stored, norm, hash).db,
                  At(ws, who, jobs, stored, k + 1))
  {
    CommitAdvances(cur, jobs, stored, k, norm, hash);
    var after := At(ws, who, jobs, stored, k + 1);
    assert At(ws, who, jobs, stored, k)[who] == Committing(jobs, stored, k);
    assert At(ws, who, jobs, stored, k)[who := Committing(jobs, stored, k + 1)] == after;
  }

  lemma OneAct(db: Db, moves: seq<Move>, cur: Db, ws: seq<Phase>, who: nat, jobs: seq<Job>,
               stored: set<string>, k: nat, norm: Normalizer, hash: Digest)
    requires who < |ws| && k < |jobs|
    requires PlayMoves(db, moves, false, norm, hash) == World(cur, At(ws, who, jobs, stored, k))
    requires StoreOne(Storing(cur, 0, 1, true), jobs[k], stored, norm, hash).live
    ensures PlayMoves(db, moves + [Act(who)], false, norm, hash)
         == World(StoreOne(Storing(cur, 0, 1, true), jobs[k], stored, norm, hash).db,
                  At(ws, who, jobs, stored, k + 1))
  {
    PlaySnoc(db, moves, Act(who), false, norm, hash);
    CommitMove(cur, ws, who, jobs, stored, k, norm, hash);
  }

  lemma {:induction false} ActsRun(db: Db, moves: seq<Move>, cur: Db, ws: seq<Phase>, who: nat, jobs: seq<Job>,
                                   stored: set<string>, m: nat, norm: Normalizer, hash: Digest)
    requires who < |ws| && m <= |jobs| && RunLive(cur, jobs, stored, m, norm, hash)
    requires PlayMoves(db, moves, false, norm, hash) == World(cur, At(ws, who, jobs, stored, 0))
    ensures PlayMoves(db, Acts(moves, who, m), false, norm, hash)
         == World(CommitRun(cur, jobs, stored, m, norm, hash), At(ws, who, jobs, stored, m))
  {
    if m > 0 {
      ActsRun(db, moves, cur, ws, who, jobs, stored, m - 1, norm, hash);
      var next := CommitRun(cur, jobs, stored, m - 1, norm, hash);
      OneAct(db, Acts(moves, who, m - 1), next, ws, who, jobs, stored, m - 1, norm, hash);
    }
  }

  /** The first `m` jobs are stored and the others are not. */
  ghost predicate StoredBelow(cur: Db, jobs: seq<Job>, m: nat) {
    forall x | 0 <= x < |jobs| ::
      jobs[x].id < |cur.sources| && cur.sources[jobs[x].id].status == (if x < m then Normalized else Fetched)
  }

  /** Only stored sources have passages. */
  ghost predicate Placed(cur: Db) {
    forall key | key in cur.passages :: key.0 < |cur.sources| && cur.sources[key.0].status == Normalized
  }

  ghost predicate Midway(db: Db, cur: Db, jobs: seq<Job>, m: nat) {
    SourcesOk(cur) && Placed(cur) && Descends(db, cur) && StoredBelow(cur, jobs, m)
  }

  ghost predicate JobsOf(db: Db, jobs: seq<Job>) {
    Increasing(jobs) && forall job | job in jobs :: JobFits(db.sources, job)
  }

  /** A commit for a source that has no passages yet succeeds, whatever the snapshot. */
  lemma FreshLive(db: Db, cur: Db, jobs: seq<Job>, m: nat, stored: set<string>, norm: Normalizer, hash: Digest)
    requires JobsOf(db, jobs) && m < |jobs| && Midway(db, cur, jobs, m) && TextOf(db, jobs[m].id, norm).Some?
    ensures var r := StoreOne(Storing(cur, 0, 1, true), jobs[m], stored, norm, hash);
      && r.live
      && r.db == cur.(
           passages := cur.passages + NewRows(jobs[m].id, TextChunks(TextOf(db, jobs[m].id, norm).value), stored, hash),
           sources := MarkNormalized(cur.sources, jobs[m].id))
  {
    assert jobs[m] in jobs;
    JobStands(db, cur, jobs[m], norm);
    NewRowsAre(jobs[m].id, TextChunks(TextOf(db, jobs[m].id, norm).value), stored, hash);
  }

  /** It leaves the tables midway, one job further. */
  lemma FreshMidway(db: Db, cur: Db, jobs: seq<Job>, m: nat, rows: map<(nat, nat), Passage>)
    requires JobsOf(db, jobs) && m < |jobs| && Midway(db, cur, jobs, m)
    requires forall key | key in rows :: key.0 == jobs[m].id
    ensures Midway(db, cur.(passages := cur.passages + rows, sources := MarkNormalized(cur.sources, jobs[m].id)),
                   jobs, m + 1)
  {
    var id := jobs[m].id;
    var next := cur.(passages := cur.passages + rows, sources := MarkNormalized(cur.sources, id));
    MarkKeepsSources(cur, id, cur.passages + rows);
    MarkMarks(cur, next, id);
    DescendsOn(db, cur, next);
    forall x | 0 <= x < |jobs| && x != m ensures jobs[x].id != id {
      assert jobs[if x < m then x else m].id < jobs[if x < m then m else x].id;
    }
  }

  /** The first `m` jobs normalize. */
  ghost predicate Readable(db: Db, jobs: seq<Job>, m: nat, norm: Normalizer) {
    m <= |jobs| && forall x | 0 <= x < m :: TextOf(db, jobs[x].id, norm).Some?
  }

  /** The snapshot has every digest of the first `m` jobs. */
  ghost predicate Seen(db: Db, jobs: seq<Job>, m: nat, stored: set<string>, norm: Normalizer, hash: Digest) {
    m <= |jobs| && forall x | 0 <= x < m :: SourceDigests(db, jobs[x].id, norm, hash) <= stored
  }

  /** With nothing in its snapshot an attempt stores its first `m` jobs completely. */
  lemma {:induction false} FirstRun(db: Db, jobs: seq<Job>, m: nat, norm: Normalizer, hash: Digest)
    requires SourcesOk(db) && PassagesOk(db, norm, hash) && JobsOf(db, jobs) && Readable(db, jobs, m, norm)
    ensures RunLive(db, jobs, {}, m, norm, hash)
    ensures var cur := CommitRun(db, jobs, {}, m, norm, hash); PassagesOk(cur, norm, hash) && Midway(db, cur, jobs, m)
  {
    if m == 0 {
      StartMidway(db, jobs, norm, hash);
    } else {
      FirstRun(db, jobs, m - 1, norm, hash);
      var cur := CommitRun(db, jobs, {}, m - 1, norm, hash);
      var chunks := TextChunks(TextOf(db, jobs[m - 1].id, norm).value);
      FreshLive(db, cur, jobs, m - 1, {}, norm, hash);
      NewRowsAre(jobs[m - 1].id, chunks, {}, hash);
      FreshMidway(db, cur, jobs, m - 1, NewRows(jobs[m - 1].id, chunks, {}, hash));
      assert jobs[m - 1] in jobs;
      JobStands(db, cur, jobs[m - 1], norm);
      CommitKeeps(cur, jobs[m - 1], norm, hash);
    }
  }

  lemma StartMidway(db: Db, jobs: seq<Job>, norm: Normalizer, hash: Digest)
    requires SourcesOk(db) && PassagesOk(db, norm, hash) && JobsOf(db, jobs)
    ensures Midway(db, db, jobs, 0)
  {
    forall x | 0 <= x < |jobs| ensures JobFits(db.sources, jobs[x]) {
      assert jobs[x] in jobs;
    }
  }

  // ------------------------------------------------------------------ the second attempt

  /** What the second attempt sees: every digest of the jobs stored by then. */
  lemma SeesDigests(db: Db, cur: Db, jobs: seq<Job>, x: nat, norm: Normalizer, hash: Digest)
    requires PassagesOk(cur, norm, hash) && Descends(db, cur) && x < |jobs|
    requires jobs[x].id < |cur.sources| && cur.sources[jobs[x].id].status == Normalized
    ensures SourceDigests(db, jobs[x].id, norm, hash) <= StoredDigests(cur, jobs)
  {
    var i := jobs[x].id;
    assert Assembled(cur, i, norm, hash);
    var chunks := TextChunks(TextOf(db, i, norm).value);
    forall d | d in SourceDigests(db, i, norm, hash) ensures d in StoredDigests(cur, jobs) {
      var n :| 0 <= n < |chunks| && hash(chunks[n].text) == d;
      assert (i, n) in cur.passages && cur.passages[(i, n)].digest == d;
    }
  }

  /** A job whose digests are all in the snapshot and whose source is stored: its commit succeeds, changing nothing. */
  lemma SkippedLive(db: Db, cur: Db, job: Job, stored: set<string>, norm: Normalizer, hash: Digest)
    requires SourcesOk(cur) && Descends(db, cur) && JobFits(db.sources, job) && Done(db, cur, job.id)
    requires TextOf(db, job.id, norm).Some? && SourceDigests(db, job.id, norm, hash) <= stored
    ensures var r := StoreOne(Storing(cur, 0, 1, true), job, stored, norm, hash); r.live && r.db == cur
  {
    JobStands(db, cur, job, norm);
    var text := TextOf(db, job.id, norm).value;
    NothingNew(job.id, text, stored, hash);
    assert cur.passages + map[] == cur.passages;
    assert MarkNormalized(cur.sources, job.id) == cur.sources;
  }

  lemma NothingNew(id: nat, text: string, stored: set<string>, hash: Digest)
    requires ChunkDigests(text, hash) <= stored
    ensures NewRows(id, TextChunks(text), stored, hash) == map[]
  {
    var chunks := TextChunks(text);
    forall k: nat | k < |chunks| ensures hash(chunks[k].text) in stored {
      assert hash(chunks[k].text) in ChunkDigests(text, hash);
    }
  }

  /** The job the tables are at, when an attempt that skips the first `m` jobs has made `k` commits. */
  function Later(m: nat, k: nat): nat {
    if k < m then m else k
  }

  /** One commit of that attempt. */
  lemma SecondStep(db: Db, cur: Db, jobs: seq<Job>, m: nat, stored: set<string>, k: nat,
                   norm: Normalizer, hash: Digest)
    requires JobsOf(db, jobs) && k < |jobs| && Midway(db, cur, jobs, Later(m, k))
    requires Seen(db, jobs, m, stored, norm, hash) && TextOf(db, jobs[k].id, norm).Some?
    ensures var r := StoreOne(Storing(cur, 0, 1, true), jobs[k], stored, norm, hash);
      r.live && Midway(db, r.db, jobs, Later(m, k + 1))
  {
    if k < m {
      assert jobs[k] in jobs;
      SkippedLive(db, cur, jobs[k], stored, norm, hash);
    } else {
      var chunks := TextChunks(TextOf(db, jobs[k].id, norm).value);
      FreshLive(db, cur, jobs, k, stored, norm, hash);
      NewRowsAre(jobs[k].id, chunks, stored, hash);
      FreshMidway(db, cur, jobs, k, NewRows(jobs[k].id, chunks, stored, hash));
    }
  }

  /** With the digests of the first `m` jobs in its snapshot an attempt skips those and goes on with the others. */
  lemma {:induction false} SecondRun(db: Db, mid: Db, jobs: seq<Job>, m: nat, stored: set<string>, k: nat,
                                     norm: Normalizer, hash: Digest)
    requires JobsOf(db, jobs) && Midway(db, mid, jobs, m)
    requires Seen(db, jobs, m, stored, norm, hash) && Readable(db, jobs, k, norm)
    ensures RunLive(mid, jobs, stored, k, norm, hash)
    ensures Midway(db, CommitRun(mid, jobs, stored, k, norm, hash), jobs, Later(m, k))
  {
    if k > 0 {
      SecondRun(db, mid, jobs, m, stored, k - 1, norm, hash);
      SecondStep(db, CommitRun(mid, jobs, stored, k - 1, norm, hash), jobs, m, stored, k - 1, norm, hash);
    }
  }

  /** A source that counts as stored without all its passages. */
  ghost predicate Lost(cur: Db, i: nat, norm: Normalizer, hash: Digest) {
    && i < |cur.sources| == |cur.replies|
    && cur.sources[i].status == Normalized && !Assembled(cur, i, norm, hash)
  }

  lemma LostBreaks(cur: Db, i: nat, norm: Normalizer, hash: Digest)
    requires Lost(cur, i, norm, hash)
    ensures !PassagesOk(cur, norm, hash)
  {
  }

  /** A chunk in the snapshot gets no row, and yet its source is marked. */
  lemma SharedIsLost(db: Db, cur: Db, jobs: seq<Job>, b: nat, stored: set<string>, d: string,
                     norm: Normalizer, hash: Digest)
    requires JobsOf(db, jobs) && b < |jobs| && Midway(db, cur, jobs, b) && TextOf(db, jobs[b].id, norm).Some?
    requires d in stored && d in SourceDigests(db, jobs[b].id, norm, hash)
    ensures Lost(StoreOne(Storing(cur, 0, 1, true), jobs[b], stored, norm, hash).db, jobs[b].id, norm, hash)
  {
    var id, text := jobs[b].id, TextOf(db, jobs[b].id, norm).value;
    var chunks := TextChunks(text);
    var n :| 0 <= n < |chunks| && hash(chunks[n].text) == d;
    FreshLive(db, cur, jobs, b, stored, norm, hash);
    NewRowsAre(id, chunks, stored, hash);
    assert cur.sources[id].status == Fetched;
    var next := StoreOne(Storing(cur, 0, 1, true), jobs[b], stored, norm, hash).db;
    assert (id, n) !in next.passages;
    assert jobs[b] in jobs;
    JobStands(db, cur, jobs[b], norm);
    assert !Assembled(next, id, norm, hash);
  }

  // ------------------------------------------------------------------ the whole schedule

  /** Attempt 0 stores the jobs up to `a`, then attempt 1 reads its digests and goes on up to `b`. */
  function Loss(a: nat, b: nat): seq<Move> {
    Acts(Acts(Reads(), 0, a + 1) + [Act(1)], 1, b + 1)
  }

  /** The tables when attempt 0 has stored the jobs up to `a`, and what attempt 1 then reads. */
  function MidTables(db: Db, jobs: seq<Job>, a: nat, norm: Normalizer, hash: Digest): Db
    requires a < |jobs|
  {
    CommitRun(db, jobs, {}, a + 1, norm, hash)
  }

  lemma MidSees(db: Db, jobs: seq<Job>, a: nat, norm: Normalizer, hash: Digest)
    requires SourcesOk(db) && PassagesOk(db, norm, hash) && JobsOf(db, jobs) && Readable(db, jobs, a + 1, norm)
    ensures RunLive(db, jobs, {}, a + 1, norm, hash)
    ensures var mid := MidTables(db, jobs, a, norm, hash);
      Midway(db, mid, jobs, a + 1) && Seen(db, jobs, a + 1, StoredDigests(mid, jobs), norm, hash)
  {
    var mid := MidTables(db, jobs, a, norm, hash);
    FirstRun(db, jobs, a + 1, norm, hash);
    forall x | 0 <= x < a + 1 ensures SourceDigests(db, jobs[x].id, norm, hash) <= StoredDigests(mid, jobs) {
      SeesDigests(db, mid, jobs, x, norm, hash);
    }
  }

  /** The attempts when the second has read the digests. */
  function Readers(jobs: seq<Job>, a: nat): seq<Phase> {
    [Committing(jobs, {}, a + 1), ReadDigests(jobs)]
  }

  /** Up to there. */
  lemma LossReads(db: Db, jobs: seq<Job>, a: nat, norm: Normalizer, hash: Digest)
    requires PassagesOk(db, norm, hash) && jobs == FetchedJobs(db.sources) && a < |jobs|
    requires RunLive(db, jobs, {}, a + 1, norm, hash)
    ensures var mid := MidTables(db, jobs, a, norm, hash);
      PlayMoves(db, Acts(Reads(), 0, a + 1) + [Act(1)], false, norm, hash)
      == World(mid, At(Readers(jobs, a), 1, jobs, StoredDigests(mid, jobs), 0))
  {
    NoDigests(db, norm, hash);
    BothRead(db, norm, hash);
    var ws := [Gone, ReadDigests(jobs)];
    assert At(ws, 0, jobs, {}, 0) == [Committing(jobs, {}, 0), ReadDigests(jobs)];
    ActsRun(db, Reads(), db, ws, 0, jobs, {}, a + 1, norm, hash);
    assert At(ws, 0, jobs, {}, a + 1) == Readers(jobs, a);
    PlaySnoc(db, Acts(Reads(), 0, a + 1), Act(1), false, norm, hash);
    DigestsMove(MidTables(db, jobs, a, norm, hash), jobs, a, norm, hash);
  }

  lemma DigestsMove(mid: Db, jobs: seq<Job>, a: nat, norm: Normalizer, hash: Digest)
    ensures Perform(World(mid, Readers(jobs, a)), Act(1), false, norm, hash)
         == World(mid, At(Readers(jobs, a), 1, jobs, StoredDigests(mid, jobs), 0))
  {
  }

  /** The rest of the schedule, from tables and a snapshot. */
  lemma LossGoesOn(db: Db, jobs: seq<Job>, a: nat, b: nat, mid: Db, stored: set<string>,
                   norm: Normalizer, hash: Digest)
    requires b < |jobs| && RunLive(mid, jobs, stored, b + 1, norm, hash)
    requires PlayMoves(db, Acts(Reads(), 0, a + 1) + [Act(1)], false, norm, hash)
          == World(mid, At(Readers(jobs, a), 1, jobs, stored, 0))
    ensures PlayMoves(db, Loss(a, b), false, norm, hash).db
         == StoreOne(Storing(CommitRun(mid, jobs, stored, b, norm, hash), 0, 1, true), jobs[b], stored, norm, hash).db
  {
    var moves := Acts(Reads(), 0, a + 1) + [Act(1)];
    ActsRun(db, moves, mid, Readers(jobs, a), 1, jobs, stored, b + 1, norm, hash);
  }

  /** Two jobs that share a chunk, with no job up to the later one failing to normalize. */
  ghost predicate Sharing(db: Db, jobs: seq<Job>, a: nat, b: nat, d: string, norm: Normalizer, hash: Digest) {
    && a < b < |jobs| && Readable(db, jobs, b + 1, norm)
    && d in SourceDigests(db, jobs[a].id, norm, hash) && d in SourceDigests(db, jobs[b].id, norm, hash)
  }

  lemma SnapshotRuns(db: Db, jobs: seq<Job>, a: nat, b: nat, mid: Db, stored: set<string>,
                     norm: Normalizer, hash: Digest)
    requires JobsOf(db, jobs) && a < b < |jobs| && Readable(db, jobs, b + 1, norm) && Midway(db, mid, jobs, a + 1)
    requires Seen(db, jobs, a + 1, stored, norm, hash)
    ensures RunLive(mid, jobs, stored, b + 1, norm, hash)
    ensures Midway(db, CommitRun(mid, jobs, stored, b, norm, hash), jobs, b)
  {
    SecondRun(db, mid, jobs, a + 1, stored, b, norm, hash);
    SecondStep(db, CommitRun(mid, jobs, stored, b, norm, hash), jobs, a + 1, stored, b, norm, hash);
  }

  lemma LossLoses(db: Db, jobs: seq<Job>, a: nat, b: nat, d: string, norm: Normalizer, hash: Digest)
    requires SourcesOk(db) && PassagesOk(db, norm, hash) && jobs == FetchedJobs(db.sources) && JobsOf(db, jobs)
    requires Sharing(db, jobs, a, b, d, norm, hash)
    ensures Lost(PlayMoves(db, Loss(a, b), false, norm, hash).db, jobs[b].id, norm, hash)
  {
    var mid := MidTables(db, jobs, a, norm, hash);
    var stored := StoredDigests(mid, jobs);
    assert Readable(db, jobs, a + 1, norm);
    MidSees(db, jobs, a, norm, hash);
    LossReads(db, jobs, a, norm, hash);
    SnapshotRuns(db, jobs, a, b, mid, stored, norm, hash);
    LossGoesOn(db, jobs, a, b, mid, stored, norm, hash);
    SharedIsLost(db, CommitRun(mid, jobs, stored, b, norm, hash), jobs, b, stored, d, norm, hash);
  }

  lemma ReachedReadable(db: Db, jobs: seq<Job>, b: nat, norm: Normalizer)
    requires JobsOf(db, jobs) && b < |jobs| && Reached(db, jobs[b].id, norm)
    ensures Readable(db, jobs, b + 1, norm)
  {
    forall x | 0 <= x < b + 1 ensures TextOf(db, jobs[x].id, norm).Some? {
      assert jobs[x] in jobs && JobFits(db.sources, jobs[x]);
      assert x < b ==> jobs[x].id < jobs[b].id;
    }
  }

  lemma InOrder(jobs: seq<Job>, a: nat, b: nat)
    requires Increasing(jobs) && a < |jobs| && b < |jobs| && jobs[a].id < jobs[b].id
    ensures a < b
  {
  }

  lemma PositionOf(db: Db, jobs: seq<Job>, i: nat) returns (x: nat)
    requires FetchedAt(db, i) && jobs == FetchedJobs(db.sources)
    ensures x < |jobs| && jobs[x].id == i
  {
    JobsCover(db.sources, i);
    x :| 0 <= x < |jobs| && jobs[x].id == i;
  }

  /** Two reached sources that share a chunk: some schedule loses a passage of the later one. */
  lemma SharedLoses(db: Db, i: nat, j: nat, d: string, norm: Normalizer, hash: Digest)
    returns (moves: seq<Move>)
    requires SourcesOk(db) && PassagesOk(db, norm, hash) && i < j && Reached(db, i, norm) && Reached(db, j, norm)
    requires d in SourceDigests(db, i, norm, hash) && d in SourceDigests(db, j, norm, hash)
    ensures Lost(PlayMoves(db, moves, false, norm, hash).db, j, norm, hash)
  {
    var jobs := FetchedJobs(db.sources);
    JobsFit(db.sources);
    JobsOrdered(db.sources);
    var a := PositionOf(db, jobs, i);
    var b := PositionOf(db, jobs, j);
    InOrder(jobs, a, b);
    ReachedReadable(db, jobs, b, norm);
    moves := Loss(a, b);
    LossLoses(db, jobs, a, b, d, norm, hash);
  }

  // ------------------------------------------------------------------ later attempts

  lemma CommitSpares(st: Storing, job: Job, stored: set<string>, i: nat, norm: Normalizer, hash: Digest)
    requires Lost(st.db, i, norm, hash) && job.id < |st.db.sources| && job.id != i
    ensures var r := StoreOne(st, job, stored, norm, hash);
      Lost(r.db, i, norm, hash) && |r.db.sources| == |st.db.sources|
  {
    var r := StoreOne(st, job, stored, norm, hash);
    if r.live && BlobOf(st.db, job.rawRef).Some? && norm(job.kind, BlobOf(st.db, job.rawRef).value).Some? {
      var chunks := TextChunks(norm(job.kind, BlobOf(st.db, job.rawRef).value).value);
      NewRowsAre(job.id, chunks, stored, hash);
      OthersStay(st.db, r.db, job.id, NewRows(job.id, chunks, stored, hash), i, norm, hash);
    }
  }

  lemma {:induction false} CommitsSpare(st: Storing, jobs: seq<Job>, stored: set<string>, i: nat,
                                        norm: Normalizer, hash: Digest)
    requires Lost(st.db, i, norm, hash)
    requires forall job | job in jobs :: job.id < |st.db.sources| && job.id != i
    ensures var r := StoreAll(st, jobs, stored, norm, hash);
      Lost(r.db, i, norm, hash) && |r.db.sources| == |st.db.sources|
  {
    if jobs != [] {
      var n := |jobs| - 1;
      assert jobs[n] in jobs;
      CommitsSpare(st, jobs[..n], stored, i, norm, hash);
      CommitSpares(StoreAll(st, jobs[..n], stored, norm, hash), jobs[n], stored, i, norm, hash);
    }
  }

  /** The tables after more store attempts, one after another, each dying after some number of writes. */
  function Resumes(db: Db, writes: seq<nat>, norm: Normalizer, hash: Digest): Db {
    if writes == [] then db
    else StoreRun(Resumes(db, writes[..|writes| - 1], norm, hash), norm, hash, writes[|writes| - 1]).0
  }

  lemma RunSpares(db: Db, i: nat, writes: nat, norm: Normalizer, hash: Digest)
    requires Lost(db, i, norm, hash)
    ensures Lost(StoreRun(db, norm, hash, writes).0, i, norm, hash)
  {
    var jobs := FetchedJobs(db.sources);
    JobsFit(db.sources);
    forall job | job in jobs ensures job.id < |db.sources| && job.id != i {
      assert JobFits(db.sources, job);
    }
    CommitsSpare(Storing(db, 0, writes, true), jobs, StoredDigests(db, jobs), i, norm, hash);
  }

  lemma {:induction false} StaysLost(db: Db, i: nat, writes: seq<nat>, norm: Normalizer, hash: Digest)
    requires Lost(db, i, norm, hash)
    ensures Lost(Resumes(db, writes, norm, hash), i, norm, hash)
  {
    if writes != [] {
      StaysLost(db, i, writes[..|writes| - 1], norm, hash);
      RunSpares(Resumes(db, writes[..|writes| - 1], norm, hash), i, writes[|writes| - 1], norm, hash);
    }
  }

  /** Two reached sources that share a chunk: some schedule loses it, and attempts after it never bring it back. */
  lemma SharedIsGone(db: Db, i: nat, j: nat, norm: Normalizer, hash: Digest) returns (moves: seq<Move>)
    requires SourcesOk(db) && PassagesOk(db, norm, hash) && i < j && Reached(db, i, norm) && Reached(db, j, norm)
    requires !(SourceDigests(db, i, norm, hash) !! SourceDigests(db, j, norm, hash))
    ensures forall writes ::
              Lost(Resumes(PlayMoves(db, moves, false, norm, hash).db, writes, norm, hash), j, norm, hash)
  {
    var d :| d in SourceDigests(db, i, norm, hash) && d in SourceDigests(db, j, norm, hash);
    moves := SharedLoses(db, i, j, d, norm, hash);
    forall writes
      ensures Lost(Resumes(PlayMoves(db, moves, false, norm, hash).db, writes, norm, hash), j, norm, hash)
    {
      StaysLost(PlayMoves(db, moves, false, norm, hash).db, j, writes, norm, hash);
    }
  }

  lemma SharedBreaks(db: Db, i: nat, j: nat, norm: Normalizer, hash: Digest) returns (moves: seq<Move>)
    requires SourcesOk(db) && PassagesOk(db, norm, hash) && i < j && Reached(db, i, norm) && Reached(db, j, norm)
    requires !(SourceDigests(db, i, norm, hash) !! SourceDigests(db, j, norm, hash))
    ensures !PassagesOk(PlayMoves(db, moves, false, norm, hash).db, norm, hash)
  {
    var d :| d in SourceDigests(db, i, norm, hash) && d in SourceDigests(db, j, norm, hash);
    moves := SharedLoses(db, i, j, d, norm, hash);
    LostBreaks(PlayMoves(db, moves, false, norm, hash).db, j, norm, hash);
  }

  /**
   Every schedule of any number of store attempts, each able to die anywhere and to see two states,
   keeps the passages exactly when no two of the fetched sources that an attempt gets to share a chunk.
   */
  lemma SchedulesKeepIff(db: Db, norm: Normalizer, hash: Digest)
    requires SourcesOk(db) && PassagesOk(db, norm, hash)
    ensures (forall moves :: PassagesOk(PlayMoves(db, moves, false, norm, hash).db, norm, hash))
       <==> NoneShare(db, norm, hash)
  {
    if NoneShare(db, norm, hash) {
      forall moves ensures PassagesOk(PlayMoves(db, moves, false, norm, hash).db, norm, hash) {
        SchedulesFit(db, moves, norm, hash);
      }
    } else {
      var i: nat, j: nat :| i < j && Reached(db, i, norm) && Reached(db, j, norm)
                            && !(SourceDigests(db, i, norm, hash) !! SourceDigests(db, j, norm, hash));
      var moves := SharedBreaks(db, i, j, norm, hash);
    }
  }

  /** Two pages with one text, as one collect attempt can leave them, share every chunk. */
  lemma SameTextsShare(db: Db, norm: Normalizer, text: string, hash: Digest)
    requires SameTexts(db, norm, text)
    ensures !NoneShare(db, norm, hash)
  {
    Chunker.ChunksTile(text, Chunker.CHUNK_MIN_CHARS, Chunker.CHUNK_MAX_CHARS);
    assert hash(TextChunks(text)[0].text) in ChunkDigests(text, hash);
    var i: nat, j: nat := 0, 1;
    assert Reached(db, i, norm) && Reached(db, j, norm);
    assert !(SourceDigests(db, i, norm, hash) !! SourceDigests(db, j, norm, hash));
  }
}
