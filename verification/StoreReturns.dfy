/** Exactly when a store attempt that runs alone gets to its end, and what it then reports. */
module StoreReturns {
  import opened Prelude
  import opened Ingest
  import opened IngestProofs
  import Chunker

  /** The sources waiting to be stored. */
  function FetchedRows(db: Db): set<nat> {
    set i: nat | i < |db.sources| && db.sources[i].status == Fetched
  }

  /** The text of a source can be made from what was fetched for it. */
  predicate Normalizes(db: Db, i: nat, norm: Normalizer) {
    i < |db.sources| && i < |db.replies| && norm(db.sources[i].kind, db.replies[i]).Some?
  }

  /** One commit for a fetched source goes through exactly if its text can be made and a write is left. */
  lemma CommitLiveIff(st: Storing, job: Job, norm: Normalizer, hash: Digest)
    requires SourcesOk(st.db) && PassagesOk(st.db, norm, hash) && JobOf(st.db, job) && st.live
    ensures var r := StoreOne(st, job, {}, norm, hash);
      && (r.live <==> Normalizes(st.db, job.id, norm) && st.writes > 0)
      && (r.live ==> r.writes == st.writes - 1 && |r.db.passages| - |st.db.passages| == r.total - st.total)
  {
    assert BlobOf(st.db, job.rawRef) == Some(st.db.replies[job.id]);
    if Normalizes(st.db, job.id, norm) {
      RowsFresh(st.db, job.id, TextChunks(norm(job.kind, st.db.replies[job.id]).value), norm, hash);
    }
  }

  /** The rows of a fetched source clash with nothing and are as many as its chunks. */
  lemma RowsFresh(db: Db, id: nat, chunks: seq<Chunker.Chunk>, norm: Normalizer, hash: Digest)
    requires PassagesOk(db, norm, hash) && id < |db.sources| && db.sources[id].status == Fetched
    ensures var rows := NewRows(id, chunks, {}, hash);
      rows.Keys !! db.passages.Keys && |db.passages + rows| == |db.passages| + |chunks|
  {
    var rows := NewRows(id, chunks, {}, hash);
    NewRowsAre(id, chunks, {}, hash);
    RowsCount(id, chunks, hash);
    assert rows.Keys !! db.passages.Keys;
    UnionSize(db.passages, rows);
  }

  lemma UnionSize<K, V>(a: map<K, V>, b: map<K, V>)
    requires a.Keys !! b.Keys
    ensures |a + b| == |a| + |b|
  {
    assert (a + b).Keys == a.Keys + b.Keys;
  }

  lemma RowsCount(id: nat, chunks: seq<Chunker.Chunk>, hash: Digest)
    ensures |NewRows(id, chunks, {}, hash)| == |chunks|
  {
    NewRowsAre(id, chunks, {}, hash);
    var keys := NewRows(id, chunks, {}, hash).Keys;
    assert keys == KeysTo(id, |chunks|) by {
      forall key ensures key in keys <==> key in KeysTo(id, |chunks|) {
        assert key == (key.0, key.1);
      }
    }
    KeysSize(id, |chunks|);
  }

  function KeysTo(id: nat, n: nat): set<(nat, nat)> {
    set k: nat | k < n :: (id, k)
  }

  lemma {:induction false} KeysSize(id: nat, n: nat)
    ensures |KeysTo(id, n)| == n
  {
    if n == 0 {
      assert KeysTo(id, 0) == {};
    } else {
      KeysSize(id, n - 1);
      assert KeysTo(id, n) == KeysTo(id, n - 1) + {(id, n - 1)};
    }
  }

  ghost predicate AllNormalize(db: Db, jobs: seq<Job>, norm: Normalizer) {
    forall job | job in jobs :: Normalizes(db, job.id, norm)
  }

  /** How a loop over `jobs` that started with some writes and tables has come out. */
  ghost predicate LoopAt(db: Db, r: Storing, jobs: seq<Job>, norm: Normalizer, writes: nat) {
    && (r.live <==> AllNormalize(db, jobs, norm) && writes >= |jobs|)
    && (r.live ==> r.writes == writes - |jobs| && |r.db.passages| - |db.passages| == r.total)
  }

  lemma AllNormalizeSnoc(db: Db, front: seq<Job>, job: Job, norm: Normalizer)
    ensures AllNormalize(db, front + [job], norm) <==> AllNormalize(db, front, norm) && Normalizes(db, job.id, norm)
  {
    assert forall x :: x in front + [job] <==> x in front || x == job;
  }

  /** One more commit. */
  lemma LoopSnoc(db: Db, b: Storing, front: seq<Job>, job: Job, norm: Normalizer, hash: Digest, writes: nat)
    requires b.live && LoopAt(db, b, front, norm, writes) && JobOf(db, job)
    requires SourcesOk(b.db) && PassagesOk(b.db, norm, hash) && StoredUpTo(db, b.db, front, true)
    requires |db.sources| == |db.replies| && Increasing(front + [job])
    ensures LoopAt(db, StoreOne(b, job, {}, norm, hash), front + [job], norm, writes)
  {
    StillFetched(db, b.db, front, job);
    assert Normalizes(b.db, job.id, norm) == Normalizes(db, job.id, norm);
    CommitLiveIff(b, job, norm, hash);
    AllNormalizeSnoc(db, front, job, norm);
  }

  lemma LoopDead(db: Db, b: Storing, front: seq<Job>, job: Job, norm: Normalizer, writes: nat)
    requires !b.live && LoopAt(db, b, front, norm, writes)
    ensures LoopAt(db, b, front + [job], norm, writes)
  {
    AllNormalizeSnoc(db, front, job, norm);
  }

  lemma StoreAllSnoc(st: Storing, front: seq<Job>, job: Job, norm: Normalizer, hash: Digest)
    ensures var b := StoreAll(st, front, {}, norm, hash);
      StoreAll(st, front + [job], {}, norm, hash) == if b.live then StoreOne(b, job, {}, norm, hash) else b
  {
    assert (front + [job])[..|front|] == front;
  }

  ghost predicate Jobs(db: Db, jobs: seq<Job>) {
    Increasing(jobs) && forall j | 0 <= j < |jobs| :: JobOf(db, jobs[j])
  }

  lemma JobsFront(db: Db, front: seq<Job>, job: Job)
    requires Jobs(db, front + [job])
    ensures Jobs(db, front) && JobOf(db, job)
  {
    var all := front + [job];
    assert all[|front|] == job && forall j | 0 <= j < |front| :: all[j] == front[j];
  }

  lemma {:induction false} LoopLiveIff(db: Db, jobs: seq<Job>, norm: Normalizer, hash: Digest, writes: nat)
    requires SourcesOk(db) && PassagesOk(db, norm, hash) && Jobs(db, jobs)
    ensures LoopAt(db, StoreAll(Storing(db, 0, writes, true), jobs, {}, norm, hash), jobs, norm, writes)
  {
    if jobs != [] {
      var front, job := jobs[..|jobs| - 1], jobs[|jobs| - 1];
      assert jobs == front + [job];
      JobsFront(db, front, job);
      LoopLiveIff(db, front, norm, hash, writes);
      StoreAllKeeps(db, front, norm, hash, writes);
      StoreAllSnoc(Storing(db, 0, writes, true), front, job, norm, hash);
      var b := StoreAll(Storing(db, 0, writes, true), front, {}, norm, hash);
      if b.live {
        LoopSnoc(db, b, front, job, norm, hash, writes);
      } else {
        LoopDead(db, b, front, job, norm, writes);
      }
    }
  }

  /**
   A store attempt that runs alone returns exactly if the text of every fetched source can be made and
   it lives for one write per source; it reports the number of passages it added.
   */
  lemma ReturnsIff(db: Db, norm: Normalizer, hash: Digest, writes: nat)
    requires SourcesOk(db) && PassagesOk(db, norm, hash)
    ensures var (db', end) := StoreRun(db, norm, hash, writes);
      && (end.Returned? <==>
            && (forall i: nat | i in FetchedRows(db) :: Normalizes(db, i, norm))
            && writes >= |FetchedRows(db)|)
      && (end.Returned? ==> |db'.passages| == |db.passages| + end.detail)
  {
    var jobs := FetchedJobs(db.sources);
    JobsFit(db.sources);
    JobsOrdered(db.sources);
    forall j | 0 <= j < |jobs| ensures JobOf(db, jobs[j]) {
      assert jobs[j] in jobs;
    }
    assert StoredDigests(db, jobs) == {};
    LoopLiveIff(db, jobs, norm, hash, writes);
    JobsAre(db);
    EachJob(db, jobs, norm);
  }

  lemma EachJob(db: Db, jobs: seq<Job>, norm: Normalizer)
    requires Ids(jobs) == FetchedRows(db)
    ensures AllNormalize(db, jobs, norm) <==> forall i: nat | i in FetchedRows(db) :: Normalizes(db, i, norm)
  {
    forall job | job in jobs ensures job.id in Ids(jobs) {
      var j :| 0 <= j < |jobs| && jobs[j] == job;
    }
  }

  lemma JobsAre(db: Db)
    ensures Ids(FetchedJobs(db.sources)) == FetchedRows(db) && |FetchedJobs(db.sources)| == |FetchedRows(db)|
  {
    var jobs := FetchedJobs(db.sources);
    JobsFit(db.sources);
    JobsOrdered(db.sources);
    forall i: nat | i in FetchedRows(db) ensures i in Ids(jobs) {
      JobsCover(db.sources, i);
    }
    forall i | i in Ids(jobs) ensures i in FetchedRows(db) {
      var j :| 0 <= j < |jobs| && jobs[j].id == i;
      assert jobs[j] in jobs;
    }
    assert Ids(jobs) == FetchedRows(db);
    IdsSize(jobs);
  }

  lemma {:induction false} IdsSize(jobs: seq<Job>)
    requires Increasing(jobs)
    ensures |Ids(jobs)| == |jobs|
  {
    if jobs == [] {
      assert Ids(jobs) == {};
    } else {
      var n, front := |jobs| - 1, jobs[..|jobs| - 1];
      assert jobs == front + [jobs[n]];
      IdsSize(front);
      IdsSnoc(front, jobs[n]);
      forall j | 0 <= j < n ensures front[j].id < jobs[n].id {
        assert jobs[j] == front[j];
      }
    }
  }
}
