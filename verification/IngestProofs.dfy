/** What collect and store keep over every history of attempts. */
module IngestProofs {
  import opened Prelude
  import opened Ingest
  import Chunker
  import Search

  // -------------------------------------------------------------------- collect

  /** `b` has the rows of `a` and perhaps more after them; passages are untouched. */
  ghost predicate Grows(a: Db, b: Db) {
    a.sources <= b.sources && a.replies <= b.replies && a.audits <= b.audits && a.passages == b.passages
  }

  lemma RecordKeeps(st: Collecting, source: Source, action: string, decision: string, reply: string)
    requires SourcesOk(st.db) && source.status != Normalized && decision == DecisionOf(source.status) && st.live
    requires source.rawRef.Some? <==> source.status == Fetched
    requires source.rawRef.Some? ==> BlobOf(st.db, source.rawRef) == Some(reply)
    ensures var r := Record(st, source, action, decision, reply);
      && SourcesOk(r.db) && Grows(st.db, r.db) && r.seen == st.seen && r.db.blobs == st.db.blobs
      && r.db.sources == (if r.live then st.db.sources + [source] else st.db.sources)
  {
  }

  lemma PutBlobKeeps(st: Collecting, content: string, hash: Digest)
    requires SourcesOk(st.db) && SeenOk(st, hash) && Injective(hash) && st.live
    ensures var r := PutBlob(st, hash(content), content);
      && SourcesOk(r.db) && SeenOk(r, hash) && Grows(st.db, r.db) && r.db.sources == st.db.sources
      && (r.live ==> hash(content) in r.seen && BlobOf(r.db, Some(r.seen[hash(content)])) == Some(content))
  {
  }

  /** One URI adds one complete row if it gets through, and no row otherwise. */
  lemma CollectOneKeeps(st: Collecting, uri: string, visit: Visit, hash: Digest)
    requires SourcesOk(st.db) && SeenOk(st, hash) && Injective(hash) && st.live
    ensures var r := CollectOne(st, uri, visit, hash);
      && SourcesOk(r.db) && SeenOk(r, hash) && Grows(st.db, r.db)
      && |r.db.sources| == |st.db.sources| + (if r.live then 1 else 0)
      && (r.live ==> r.db.sources[|st.db.sources|].uri == uri && r.db.sources[|st.db.sources|].status != Normalized)
  {
    if !IsFileUri(uri) && !visit.allowed {
      RecordKeeps(st, Source(uri, "other", hash(uri), None, false, Quarantined),
                  "source.quarantined", "quarantined", "");
    } else {
      match visit.reply
      case OtherError =>
      case FetchError =>
        RecordKeeps(st, Source(uri, "other", hash(uri), None, true, Failed),
                    "source.fetch_failed", "failed", "");
      case Page(content, kind, isUnsafe) =>
        if isUnsafe {
          RecordKeeps(st, Source(uri, kind, hash(content), None, true, Quarantined),
                      "source.quarantined", "quarantined", "");
        } else {
          PutBlobKeeps(st, content, hash);
          var stored := PutBlob(st, hash(content), content);
          if stored.live {
            RecordKeeps(stored, Source(uri, kind, hash(hash(content) + ":" + uri), Some(stored.seen[hash(content)]),
                                       true, Fetched),
                        "source.fetched", "fetched", content);
          }
        }
    }
  }

  /** The rows an attempt added so far are for URIs of the list that had none, and each such URI has its row. */
  ghost predicate Covered(before: Db, db: Db, urls: seq<string>, live: bool) {
    && before.sources <= db.sources
    && (forall j | |before.sources| <= j < |db.sources| ::
          db.sources[j].uri in urls && db.sources[j].uri !in KnownUris(before) && db.sources[j].status != Normalized)
    && (live ==> forall uri | uri in urls :: uri in KnownUris(db))
  }

  lemma KnownUrisGrow(a: Db, b: Db)
    requires a.sources <= b.sources
    ensures KnownUris(a) <= KnownUris(b)
  {
    forall uri | uri in KnownUris(a) ensures uri in KnownUris(b) {
      var i :| 0 <= i < |a.sources| && a.sources[i].uri == uri;
      assert b.sources[i].uri == uri;
    }
  }

  /** One more URI of the list keeps the coverage, and one row per URI if it is new to the list. */
  lemma CoveredSnoc(before: Db, a: Db, b: Db, urls: seq<string>, uri: string, live: bool)
    requires Covered(before, a, urls, true) && uri !in KnownUris(before)
    requires a.sources <= b.sources && |b.sources| == |a.sources| + (if live then 1 else 0)
    requires live ==> b.sources[|a.sources|].uri == uri && b.sources[|a.sources|].status != Normalized
    ensures Covered(before, b, urls + [uri], live)
    ensures OneRowPerUri(a) && uri !in urls ==> OneRowPerUri(b)
  {
    KnownUrisGrow(a, b);
    if live {
      assert b.sources[|a.sources|].uri == uri;
      if OneRowPerUri(a) && uri !in urls {
        forall i | 0 <= i < |a.sources| ensures a.sources[i].uri != uri {
          assert i < |before.sources| ==> before.sources[i].uri in KnownUris(before);
        }
      }
    }
  }

  lemma {:induction false} CollectAllKeeps(db: Db, writes: nat, urls: seq<string>, visit: nat -> Visit, hash: Digest)
    requires SourcesOk(db) && Injective(hash)
    ensures var r := CollectAll(StartCollect(db, writes), urls, KnownUris(db), visit, hash);
      && SourcesOk(r.db) && SeenOk(r, hash) && Grows(db, r.db)
      && Covered(db, r.db, urls, r.live)
      && (NoDup(urls) && OneRowPerUri(db) ==> OneRowPerUri(r.db))
  {
    if urls != [] {
      var n := |urls| - 1;
      CollectAllKeeps(db, writes, urls[..n], visit, hash);
      var b := CollectAll(StartCollect(db, writes), urls[..n], KnownUris(db), visit, hash);
      assert urls == urls[..n] + [urls[n]];
      if b.live && urls[n] !in KnownUris(db) {
        CollectOneKeeps(b, urls[n], visit(n), hash);
        CoveredSnoc(db, b.db, CollectOne(b, urls[n], visit(n), hash).db, urls[..n], urls[n],
                    CollectOne(b, urls[n], visit(n), hash).live);
      } else {
        KnownUrisGrow(db, b.db);
      }
    }
  }

  function CountStatus(sources: seq<Source>, status: SourceStatus): nat {
    if sources == [] then 0
    else CountStatus(sources[..|sources| - 1], status) + (if sources[|sources| - 1].status == status then 1 else 0)
  }

  ghost predicate CountedRows(rows: seq<Source>, tally: Tally) {
    && tally.fetched == CountStatus(rows, Fetched)
    && tally.quarantined == CountStatus(rows, Quarantined)
    && tally.failed == CountStatus(rows, Failed)
    && tally.fetched + tally.quarantined + tally.failed == |rows|
  }

  /** The counts a collect attempt reports are those of the rows it added. */
  ghost predicate Counted(before: Db, st: Collecting) {
    CountedRows(st.db.sources[Min(|before.sources|, |st.db.sources|)..], st.tally)
  }

  lemma CountedSnoc(rows: seq<Source>, tally: Tally, source: Source)
    requires CountedRows(rows, tally) && source.status != Normalized
    ensures CountedRows(rows + [source], Tallied(tally, source.status))
  {
    CountSnoc(rows, source, Fetched);
    CountSnoc(rows, source, Quarantined);
    CountSnoc(rows, source, Failed);
  }

  lemma RecordCounts(before: Db, st: Collecting, source: Source, action: string, decision: string, reply: string)
    requires before.sources <= st.db.sources && Counted(before, st) && source.status != Normalized
    ensures var r := Record(st, source, action, decision, reply); Counted(before, r) && before.sources <= r.db.sources
  {
    var rows := st.db.sources[|before.sources|..];
    assert (st.db.sources + [source])[|before.sources|..] == rows + [source];
    CountedSnoc(rows, st.tally, source);
  }

  lemma CountSnoc(rows: seq<Source>, source: Source, status: SourceStatus)
    ensures CountStatus(rows + [source], status)
         == CountStatus(rows, status) + (if source.status == status then 1 else 0)
  {
    assert (rows + [source])[..|rows|] == rows;
  }

  lemma SameRowsCount(before: Db, a: Collecting, b: Collecting)
    requires Counted(before, a) && a.db.sources == b.db.sources && a.tally == b.tally
    ensures Counted(before, b)
  {
  }

  lemma CollectOneCounts(before: Db, st: Collecting, uri: string, visit: Visit, hash: Digest)
    requires before.sources <= st.db.sources && Counted(before, st) && st.live
    ensures var r := CollectOne(st, uri, visit, hash); Counted(before, r) && before.sources <= r.db.sources
  {
    if !IsFileUri(uri) && !visit.allowed {
      RecordCounts(before, st, Source(uri, "other", hash(uri), None, false, Quarantined),
                   "source.quarantined", "quarantined", "");
    } else {
      match visit.reply
      case OtherError =>
        SameRowsCount(before, st, st.(live := false));
      case FetchError =>
        RecordCounts(before, st, Source(uri, "other", hash(uri), None, true, Failed),
                     "source.fetch_failed", "failed", "");
      case Page(content, kind, isUnsafe) =>
        if isUnsafe {
          RecordCounts(before, st, Source(uri, kind, hash(content), None, true, Quarantined),
                       "source.quarantined", "quarantined", "");
        } else {
          var stored := PutBlob(st, hash(content), content);
          SameRowsCount(before, st, stored);
          if stored.live {
            RecordCounts(before, stored, Source(uri, kind, hash(hash(content) + ":" + uri),
                                                Some(stored.seen[hash(content)]), true, Fetched),
                         "source.fetched", "fetched", content);
          }
        }
    }
  }

  lemma {:induction false} CollectCounts(db: Db, writes: nat, urls: seq<string>, visit: nat -> Visit, hash: Digest)
    ensures var r := CollectAll(StartCollect(db, writes), urls, KnownUris(db), visit, hash);
      db.sources <= r.db.sources && Counted(db, r)
  {
    if urls == [] {
      assert db.sources[|db.sources|..] == [];
    } else {
      var n := |urls| - 1;
      CollectCounts(db, writes, urls[..n], visit, hash);
      var b := CollectAll(StartCollect(db, writes), urls[..n], KnownUris(db), visit, hash);
      if b.live && urls[n] !in KnownUris(db) {
        CollectOneCounts(db, b, urls[n], visit(n), hash);
      }
    }
  }

  /** The row a URI gets, by what the allowlist, the fetch and the filter said; each outcome has exactly its cause. */
  lemma VisitDecides(st: Collecting, uri: string, visit: Visit, hash: Digest)
    requires SourcesOk(st.db) && SeenOk(st, hash) && Injective(hash) && st.live && CollectOne(st, uri, visit, hash).live
    ensures var r := CollectOne(st, uri, visit, hash);
      && |r.db.sources| == |st.db.sources| + 1
      && var row := r.db.sources[|st.db.sources|];
      && (row.allowlisted <==> IsFileUri(uri) || visit.allowed)
      && (row.status == Failed <==> row.allowlisted && visit.reply == FetchError)
      && (row.status == Fetched <==> row.allowlisted && visit.reply.Page? && !visit.reply.isUnsafe)
      && (row.status == Quarantined <==> !row.allowlisted || (visit.reply.Page? && visit.reply.isUnsafe))
      && (row.status == Fetched ==> BlobOf(r.db, row.rawRef) == Some(visit.reply.content))
  {
    CollectOneKeeps(st, uri, visit, hash);
    if (IsFileUri(uri) || visit.allowed) && visit.reply.Page? && !visit.reply.isUnsafe {
      PutBlobKeeps(st, visit.reply.content, hash);
    }
  }

  /** Rows added by collect have no passages, so what is assembled stays assembled. */
  lemma GrowsKeepsPassages(a: Db, b: Db, norm: Normalizer, hash: Digest)
    requires PassagesOk(a, norm, hash) && Grows(a, b) && |b.sources| == |b.replies|
    requires forall j | |a.sources| <= j < |b.sources| :: b.sources[j].status != Normalized
    ensures PassagesOk(b, norm, hash)
  {
    forall i | 0 <= i < |b.sources| && b.sources[i].status == Normalized ensures Assembled(b, i, norm, hash) {
      assert Assembled(a, i, norm, hash);
    }
  }

  // ---------------------------------------------------------------------- store

  function Ids(jobs: seq<Job>): set<nat> {
    set j | 0 <= j < |jobs| :: jobs[j].id
  }

  ghost predicate JobFits(sources: seq<Source>, job: Job) {
    && job.id < |sources| && sources[job.id].status == Fetched
    && job.rawRef == sources[job.id].rawRef && job.kind == sources[job.id].kind
  }

  ghost predicate JobOf(db: Db, job: Job) {
    JobFits(db.sources, job)
  }

  lemma {:induction false} JobsFit(sources: seq<Source>)
    ensures forall job | job in FetchedJobs(sources) :: JobFits(sources, job)
  {
    if sources != [] {
      var front := sources[..|sources| - 1];
      JobsFit(front);
      forall job | job in FetchedJobs(sources) ensures JobFits(sources, job) {
        if job in FetchedJobs(front) {
          assert JobFits(front, job);
        }
      }
    }
  }

  ghost predicate Increasing(jobs: seq<Job>) {
    forall i, j | 0 <= i < j < |jobs| :: jobs[i].id < jobs[j].id
  }

  lemma {:induction false} JobsOrdered(sources: seq<Source>)
    ensures Increasing(FetchedJobs(sources))
  {
    if sources != [] {
      var n := |sources| - 1;
      var before, jobs := FetchedJobs(sources[..n]), FetchedJobs(sources);
      JobsOrdered(sources[..n]);
      JobsFit(sources[..n]);
      forall i, j | 0 <= i < j < |jobs| ensures jobs[i].id < jobs[j].id {
        assert jobs[i] == before[i] && before[i] in before;
        assert JobFits(sources[..n], before[i]);
        if j < |before| {
          assert jobs[j] == before[j];
        }
      }
    }
  }

  lemma {:induction false} JobsCover(sources: seq<Source>, i: nat)
    requires i < |sources| && sources[i].status == Fetched
    ensures i in Ids(FetchedJobs(sources))
  {
    var n := |sources| - 1;
    var before := FetchedJobs(sources[..n]);
    if i < n {
      JobsCover(sources[..n], i);
      if sources[n].status == Fetched {
        IdsSnoc(before, Job(n, sources[n].rawRef, sources[n].kind));
      } else {
        assert before + [] == before;
      }
    } else {
      IdsSnoc(before, Job(n, sources[n].rawRef, sources[n].kind));
    }
  }

  lemma NewRowsAre(id: nat, chunks: seq<Chunker.Chunk>, stored: set<string>, hash: Digest)
    ensures var rows := NewRows(id, chunks, stored, hash);
      && (forall key | key in rows :: key.0 == id && key.1 < |chunks| && rows[key] == ToPassage(chunks[key.1], hash))
      && (forall k: nat :: (id, k) in rows <==> k < |chunks| && hash(chunks[k].text) !in stored)
  {
  }

  /** Source `i` and its passages are the same in both. */
  ghost predicate SameThere(a: Db, b: Db, i: nat) {
    && i < |a.sources| == |b.sources| == |a.replies| && b.replies == a.replies && a.sources[i] == b.sources[i]
    && (forall k: nat :: (i, k) in a.passages <==> (i, k) in b.passages)
    && (forall k: nat | (i, k) in a.passages :: a.passages[(i, k)] == b.passages[(i, k)])
  }

  lemma AssembledThere(a: Db, b: Db, i: nat, norm: Normalizer, hash: Digest)
    requires SameThere(a, b, i) && Assembled(a, i, norm, hash)
    ensures Assembled(b, i, norm, hash)
  {
    var chunks := TextChunks(norm(a.sources[i].kind, a.replies[i]).value);
    forall k: nat | k < |chunks| ensures b.passages[(i, k)] == ToPassage(chunks[k], hash) {
      assert (i, k) in a.passages;
    }
  }

  /** A commit for source `id` leaves the passages of the others alone. */
  lemma OthersStay(a: Db, b: Db, id: nat, rows: map<(nat, nat), Passage>, i: nat, norm: Normalizer, hash: Digest)
    requires |a.sources| == |b.sources| == |a.replies| && b.replies == a.replies && b.passages == a.passages + rows
    requires forall key | key in rows :: key.0 == id
    requires i < |a.sources| && i != id && a.sources[i] == b.sources[i]
    ensures Assembled(a, i, norm, hash) == Assembled(b, i, norm, hash)
  {
    forall k: nat ensures (i, k) !in rows {
    }
    assert SameThere(a, b, i) && SameThere(b, a, i);
    if Assembled(a, i, norm, hash) {
      AssembledThere(a, b, i, norm, hash);
    }
    if Assembled(b, i, norm, hash) {
      AssembledThere(b, a, i, norm, hash);
    }
  }

  /** Marking a fetched source keeps the source rows in order, whatever happens to the passages. */
  lemma MarkKeepsSources(db: Db, id: nat, passages: map<(nat, nat), Passage>)
    requires SourcesOk(db) && id < |db.sources| && db.sources[id].status == Fetched
    ensures SourcesOk(db.(passages := passages, sources := MarkNormalized(db.sources, id)))
  {
  }

  lemma StoreOneSources(st: Storing, job: Job, norm: Normalizer, hash: Digest)
    requires SourcesOk(st.db) && JobOf(st.db, job) && st.live
    ensures var r := StoreOne(st, job, {}, norm, hash);
      && SourcesOk(r.db) && r.db.replies == st.db.replies
      && r.db.sources == (if r.live then MarkNormalized(st.db.sources, job.id) else st.db.sources)
  {
    MarkKeepsSources(st.db, job.id, StoreOne(st, job, {}, norm, hash).db.passages);
  }

  /** The rows of one source do not clash with the others, and with nothing skipped they are all its chunks. */
  lemma StoreOneKeeps(st: Storing, job: Job, norm: Normalizer, hash: Digest)
    requires SourcesOk(st.db) && PassagesOk(st.db, norm, hash) && JobOf(st.db, job) && st.live
    ensures PassagesOk(StoreOne(st, job, {}, norm, hash).db, norm, hash)
  {
    var r := StoreOne(st, job, {}, norm, hash);
    if r.live {
      assert BlobOf(st.db, job.rawRef) == Some(st.db.replies[job.id]);
      StoredIsAssembled(st, job, {}, norm, hash);
      var rows := NewRows(job.id, TextChunks(norm(job.kind, st.db.replies[job.id]).value), {}, hash);
      NewRowsAre(job.id, TextChunks(norm(job.kind, st.db.replies[job.id]).value), {}, hash);
      forall i | 0 <= i < |r.db.sources| && r.db.sources[i].status == Normalized
        ensures Assembled(r.db, i, norm, hash)
      {
        if i != job.id {
          OthersStay(st.db, r.db, job.id, rows, i, norm, hash);
        }
      }
    }
  }

  /**
   Whether a committed source can be read back, for any set of digests to skip: exactly when
   none of its chunks carries one of them.  A sequential attempt skips nothing, because a
   fetched source never has passages; a snapshot taken while another attempt commits may.
   */
  lemma StoredIsAssembled(st: Storing, job: Job, stored: set<string>, norm: Normalizer, hash: Digest)
    requires SourcesOk(st.db) && PassagesOk(st.db, norm, hash) && JobOf(st.db, job)
    requires StoreOne(st, job, stored, norm, hash).live && st.live
    ensures norm(job.kind, st.db.replies[job.id]).Some?
    ensures var chunks := TextChunks(norm(job.kind, st.db.replies[job.id]).value);
      Assembled(StoreOne(st, job, stored, norm, hash).db, job.id, norm, hash)
      <==> forall k | 0 <= k < |chunks| :: hash(chunks[k].text) !in stored
  {
    assert BlobOf(st.db, job.rawRef) == Some(st.db.replies[job.id]);
    var chunks := TextChunks(norm(job.kind, st.db.replies[job.id]).value);
    NewRowsAre(job.id, chunks, stored, hash);
    var db' := StoreOne(st, job, stored, norm, hash).db;
    assert forall k: nat :: (job.id, k) in db'.passages <==> (job.id, k) in NewRows(job.id, chunks, stored, hash);
  }

  /** After the first jobs: each row as it was or normalized, and all jobs done if the attempt lives. */
  ghost predicate StoredUpTo(before: Db, db: Db, jobs: seq<Job>, live: bool) {
    && |db.sources| == |before.sources| && db.replies == before.replies
    && (forall i | 0 <= i < |db.sources| ::
          || db.sources[i] == before.sources[i]
          || (i in Ids(jobs) && db.sources[i] == before.sources[i].(status := Normalized)))
    && (live ==> forall i | i in Ids(jobs) :: i < |db.sources| && db.sources[i].status == Normalized)
  }

  lemma {:induction false} StoreAllKeeps(db: Db, jobs: seq<Job>, norm: Normalizer, hash: Digest, writes: nat)
    requires SourcesOk(db) && PassagesOk(db, norm, hash)
    requires forall j | 0 <= j < |jobs| :: JobOf(db, jobs[j])
    requires Increasing(jobs)
    ensures var r := StoreAll(Storing(db, 0, writes, true), jobs, {}, norm, hash);
      && SourcesOk(r.db) && PassagesOk(r.db, norm, hash) && StoredUpTo(db, r.db, jobs, r.live)
  {
    if jobs != [] {
      var n := |jobs| - 1;
      StoreAllKeeps(db, jobs[..n], norm, hash, writes);
      var b := StoreAll(Storing(db, 0, writes, true), jobs[..n], {}, norm, hash);
      assert jobs == jobs[..n] + [jobs[n]];
      if b.live {
        StillFetched(db, b.db, jobs[..n], jobs[n]);
        StoreOneSources(b, jobs[n], norm, hash);
        StoreOneKeeps(b, jobs[n], norm, hash);
        StoredSnoc(db, b.db, StoreOne(b, jobs[n], {}, norm, hash), jobs[..n], jobs[n]);
      } else {
        IdsSnoc(jobs[..n], jobs[n]);
      }
    }
  }

  /** A job not reached yet still finds its source as it was. */
  lemma StillFetched(before: Db, db: Db, jobs: seq<Job>, job: Job)
    requires StoredUpTo(before, db, jobs, true) && JobOf(before, job) && Increasing(jobs + [job])
    ensures JobOf(db, job) && job.id !in Ids(jobs)
  {
    forall j | 0 <= j < |jobs| ensures jobs[j].id < job.id {
      assert (jobs + [job])[j] == jobs[j] && (jobs + [job])[|jobs|] == job;
    }
  }

  lemma StoredSnoc(before: Db, a: Db, r: Storing, jobs: seq<Job>, job: Job)
    requires StoredUpTo(before, a, jobs, true) && JobOf(a, job) && r.db.replies == a.replies
    requires JobOf(before, job) && job.id !in Ids(jobs)
    requires r.db.sources == (if r.live then MarkNormalized(a.sources, job.id) else a.sources)
    ensures StoredUpTo(before, r.db, jobs + [job], r.live)
  {
    IdsSnoc(jobs, job);
  }

  lemma IdsSnoc(jobs: seq<Job>, job: Job)
    ensures Ids(jobs + [job]) == Ids(jobs) + {job.id}
  {
    var all := jobs + [job];
    assert all[|jobs|] == job;
    forall i | i in Ids(jobs) ensures i in Ids(all) {
      var j :| 0 <= j < |jobs| && jobs[j].id == i;
      assert all[j].id == i;
    }
  }

  /** A store attempt keeps both table invariants; when it returns, no fetched source is left. */
  lemma StoreRunKeeps(db: Db, norm: Normalizer, hash: Digest, writes: nat)
    requires SourcesOk(db) && PassagesOk(db, norm, hash)
    ensures var (db', end) := StoreRun(db, norm, hash, writes);
      && SourcesOk(db') && PassagesOk(db', norm, hash)
      && |db'.sources| == |db.sources| && db'.replies == db.replies
      && (forall i | 0 <= i < |db.sources| :: db'.sources[i] in {db.sources[i], db.sources[i].(status := Normalized)})
      && (end.Returned? ==> forall i | 0 <= i < |db'.sources| :: db'.sources[i].status != Fetched)
  {
    var jobs := FetchedJobs(db.sources);
    JobsFit(db.sources);
    JobsOrdered(db.sources);
    forall j | 0 <= j < |jobs| ensures JobOf(db, jobs[j]) {
      assert jobs[j] in jobs;
    }
    assert StoredDigests(db, jobs) == {};
    StoreAllKeeps(db, jobs, norm, hash, writes);
    if StoreAll(Storing(db, 0, writes, true), jobs, {}, norm, hash).live {
      forall i | 0 <= i < |db.sources| && db.sources[i].status == Fetched ensures i in Ids(jobs) {
        JobsCover(db.sources, i);
      }
    }
  }

  // -------------------------------------------------------------------- histories

  /** Attempts of the two stages in any order; each lives for a number of writes. */
  datatype Event =
    | CollectAttempt(visit: nat -> Visit, collectWrites: nat)
    | StoreAttempt(storeWrites: nat)

  function Play(db: Db, event: Event, urls: seq<string>, norm: Normalizer, hash: Digest): Db {
    match event
    case CollectAttempt(visit, writes) => CollectRun(db, Some(urls), visit, hash, writes).0
    case StoreAttempt(writes) => StoreRun(db, norm, hash, writes).0
  }

  /** The tables after a history that starts with an empty run; `urls` is the search checkpoint. */
  function PlayAll(events: seq<Event>, urls: seq<string>, norm: Normalizer, hash: Digest): Db {
    if events == [] then EMPTY
    else Play(PlayAll(events[..|events| - 1], urls, norm, hash), events[|events| - 1], urls, norm, hash)
  }

  /** Every history keeps the source and passage invariants, and one row per URI if the checkpoint lists each once. */
  lemma {:induction false} HistoryKeeps(events: seq<Event>, urls: seq<string>, norm: Normalizer, hash: Digest)
    requires Injective(hash)
    ensures var db := PlayAll(events, urls, norm, hash);
      && SourcesOk(db) && PassagesOk(db, norm, hash)
      && (NoDup(urls) ==> OneRowPerUri(db))
  {
    if events != [] {
      var n := |events| - 1;
      HistoryKeeps(events[..n], urls, norm, hash);
      var db := PlayAll(events[..n], urls, norm, hash);
      match events[n]
      case CollectAttempt(visit, writes) => CollectRunKeeps(db, urls, visit, norm, hash, writes);
      case StoreAttempt(writes) => StoreRunKeeps(db, norm, hash, writes);
    }
  }

  /** A collect attempt keeps both invariants; when it returns, every URL of the checkpoint has a row. */
  lemma CollectRunKeeps(db: Db, urls: seq<string>, visit: nat -> Visit, norm: Normalizer, hash: Digest, writes: nat)
    requires SourcesOk(db) && PassagesOk(db, norm, hash) && Injective(hash)
    ensures var (db', end) := CollectRun(db, Some(urls), visit, hash, writes);
      && SourcesOk(db') && PassagesOk(db', norm, hash) && db.sources <= db'.sources
      && (NoDup(urls) && OneRowPerUri(db) ==> OneRowPerUri(db'))
      && (end.Returned? ==> forall uri | uri in urls :: uri in KnownUris(db'))
  {
    if urls != [] {
      CollectAllKeeps(db, writes, urls, visit, hash);
      var st := CollectAll(StartCollect(db, writes), urls, KnownUris(db), visit, hash);
      GrowsKeepsPassages(db, st.db, norm, hash);
    }
  }

  /** The texts of the passages of source `i` with sequence numbers below `n`, in order. */
  function ReadBack(db: Db, i: nat, n: nat): string
    requires forall k | 0 <= k < n :: (i, k) in db.passages
  {
    if n == 0 then "" else ReadBack(db, i, n - 1) + db.passages[(i, n - 1)].text
  }

  /** The passage offsets below `n` run on from 0 without gaps. */
  predicate OffsetsTile(db: Db, i: nat, n: nat)
    requires forall k | 0 <= k < n :: (i, k) in db.passages
  {
    forall k | 0 <= k < n ::
      db.passages[(i, k)].start == (if k == 0 then 0 else db.passages[(i, k - 1)].end) < db.passages[(i, k)].end
  }

  /** The passages of an assembled source are not empty, have at most 1200 characters, and carry their digests. */
  lemma PassageFits(db: Db, i: nat, k: nat, norm: Normalizer, hash: Digest)
    requires i < |db.sources| == |db.replies| && Assembled(db, i, norm, hash) && (i, k) in db.passages
    ensures 0 < |db.passages[(i, k)].text| <= 1200
    ensures db.passages[(i, k)].digest == hash(db.passages[(i, k)].text)
  {
    var text := norm(db.sources[i].kind, db.replies[i]).value;
    ChunkFits(text, k);
    assert db.passages[(i, k)] == ToPassage(TextChunks(text)[k], hash);
  }

  lemma ChunkFits(text: string, k: nat)
    requires k < |TextChunks(text)|
    ensures 0 < |TextChunks(text)[k].text| <= 1200
  {
    var chunks := TextChunks(text);
    Chunker.ChunksTile(text, Chunker.CHUNK_MIN_CHARS, Chunker.CHUNK_MAX_CHARS);
    Chunker.CoversEach(text, chunks, 0, |text|, Chunker.CHUNK_MAX_CHARS);
    assert chunks[k] in chunks;
  }

  /** What is assembled reads back. */
  lemma AssembledReadsBack(db: Db, i: nat, norm: Normalizer, hash: Digest) returns (n: nat)
    requires i < |db.sources| == |db.replies| && Assembled(db, i, norm, hash)
    ensures forall k: nat :: (i, k) in db.passages <==> k < n
    ensures norm(db.sources[i].kind, db.replies[i]) == Some(ReadBack(db, i, n)) && OffsetsTile(db, i, n)
  {
    var text := norm(db.sources[i].kind, db.replies[i]).value;
    var chunks := TextChunks(text);
    n := |chunks|;
    Chunker.ChunksTile(text, Chunker.CHUNK_MIN_CHARS, Chunker.CHUNK_MAX_CHARS);
    assert chunks[..n] == chunks;
    ReadBackJoins(db, i, chunks, n);
    OffsetsFollow(db, i, text, chunks, 0, |text|, Chunker.CHUNK_MAX_CHARS);
  }

  lemma {:induction false} ReadBackJoins(db: Db, i: nat, chunks: seq<Chunker.Chunk>, n: nat)
    requires n <= |chunks| && forall k | 0 <= k < n ::
               (i, k) in db.passages && db.passages[(i, k)].text == chunks[k].text
    ensures ReadBack(db, i, n) == Chunker.Join(chunks[..n])
  {
    if n > 0 {
      ReadBackJoins(db, i, chunks, n - 1);
      assert chunks[..n][..n - 1] == chunks[..n - 1];
    }
  }

  lemma {:induction false} OffsetsFollow(db: Db, i: nat, text: string, chunks: seq<Chunker.Chunk>, lo: nat, hi: nat,
                                         max: nat)
    requires Chunker.Covers(text, chunks, lo, hi, max) && lo == 0
    requires forall k | 0 <= k < |chunks| ::
      (i, k) in db.passages && db.passages[(i, k)].start == chunks[k].start && db.passages[(i, k)].end == chunks[k].end
    ensures OffsetsTile(db, i, |chunks|)
    ensures chunks != [] ==> chunks[|chunks| - 1].end == hi
    ensures chunks == [] ==> lo == hi
  {
    if chunks != [] {
      var n := |chunks| - 1;
      OffsetsFollow(db, i, text, chunks[..n], lo, chunks[n].start, max);
      assert OffsetsTile(db, i, n);
      assert n > 0 ==> chunks[n - 1].end == chunks[..n][n - 1].end == chunks[n].start;
    }
  }

  // ---------------------------------------------- when a URI can get a second row

  ghost predicate ColonFree(hash: Digest) {
    forall s: string :: ':' !in hash(s)
  }

  function FreshText(k: nat): (text: string)
    ensures |text| == k
  {
    seq(k, _ => 'a')
  }

  /** A web that answers every request with a new harmless page. */
  function FreshPage(k: nat): Visit {
    Visit(true, Page(FreshText(k), "web", false))
  }

  function FreshDigest(k: nat, urls: seq<string>, hash: Digest): string
    requires k < |urls|
  {
    hash(hash(FreshText(k)) + ":" + urls[k])
  }

  lemma JoinedSame(a: string, u: string, b: string, v: string)
    requires ':' !in a && ':' !in b && a + ":" + u == b + ":" + v
    ensures a == b
  {
    var x := a + ":" + u;
    assert forall k | 0 <= k < |a| :: x[k] == a[k];
    assert forall k | 0 <= k < |b| :: x[k] == b[k];
    assert x[|a|] == ':' && (b + ":" + v)[|b|] == ':';
  }

  lemma FreshDigestsDiffer(i: nat, j: nat, urls: seq<string>, hash: Digest)
    requires i < j < |urls| && Injective(hash) && ColonFree(hash)
    ensures hash(FreshText(i)) != hash(FreshText(j))
    ensures FreshDigest(i, urls, hash) != FreshDigest(j, urls, hash)
  {
    var a, b := FreshText(i), FreshText(j);
    assert |a| != |b|;
    if hash(a) + ":" + urls[i] == hash(b) + ":" + urls[j] {
      JoinedSame(hash(a), urls[i], hash(b), urls[j]);
    }
  }

  /** The state after the first `n` URLs against that web. */
  ghost predicate AllRecorded(st: Collecting, urls: seq<string>, n: nat, hash: Digest)
    requires n <= |urls|
  {
    && st.live && st.writes == 2 * (|urls| - n) && |st.db.sources| == n
    && (forall k | 0 <= k < n ::
          st.db.sources[k].uri == urls[k] && st.db.sources[k].digest == FreshDigest(k, urls, hash))
    && (forall h | h in st.seen :: exists k | 0 <= k < n :: h == hash(FreshText(k)))
  }

  lemma FreshStep(st: Collecting, urls: seq<string>, n: nat, hash: Digest)
    requires n < |urls| && AllRecorded(st, urls, n, hash)
    requires hash(FreshText(n)) !in st.seen && !DigestTaken(st.db, FreshDigest(n, urls, hash))
    ensures AllRecorded(CollectOne(st, urls[n], FreshPage(n), hash), urls, n + 1, hash)
  {
    var content := FreshText(n);
    var stored := PutBlob(st, hash(content), content);
    assert stored.live && stored.db.sources == st.db.sources;
    assert !DigestTaken(stored.db, FreshDigest(n, urls, hash));
    var r := CollectOne(st, urls[n], FreshPage(n), hash);
    assert r.db.sources == st.db.sources + [r.db.sources[n]];
    forall h | h in r.seen ensures exists k | 0 <= k < n + 1 :: h == hash(FreshText(k)) {
      if h == hash(content) {
        assert h == hash(FreshText(n));
      } else {
        assert h in st.seen;
        var k :| 0 <= k < n && h == hash(FreshText(k));
      }
    }
  }

  /** Against that web an attempt records every URL it lists, whether or not it listed it before. */
  lemma {:induction false} FreshWebRecordsAll(urls: seq<string>, n: nat, hash: Digest)
    requires n <= |urls| && Injective(hash) && ColonFree(hash)
    ensures AllRecorded(CollectAll(StartCollect(EMPTY, 2 * |urls|), urls[..n], {}, FreshPage, hash), urls, n, hash)
  {
    if n > 0 {
      FreshWebRecordsAll(urls, n - 1, hash);
      assert urls[..n][..n - 1] == urls[..n - 1];
      var b := CollectAll(StartCollect(EMPTY, 2 * |urls|), urls[..n - 1], {}, FreshPage, hash);
      forall k | 0 <= k < n - 1
        ensures hash(FreshText(k)) != hash(FreshText(n - 1)) && b.db.sources[k].digest != FreshDigest(n - 1, urls, hash)
      {
        FreshDigestsDiffer(k, n - 1, urls, hash);
      }
      FreshStep(b, urls, n - 1, hash);
    }
  }

  lemma TwoRowsForOneUri(urls: seq<string>, norm: Normalizer, hash: Digest)
    requires Injective(hash) && ColonFree(hash) && !NoDup(urls)
    ensures !OneRowPerUri(PlayAll([CollectAttempt(FreshPage, 2 * |urls|)], urls, norm, hash))
  {
    var event := CollectAttempt(FreshPage, 2 * |urls|);
    assert [event][..0] == [];
    assert PlayAll([event], urls, norm, hash) == Play(EMPTY, event, urls, norm, hash);
    FreshWebRecordsAll(urls, |urls|, hash);
    assert urls[..|urls|] == urls && KnownUris(EMPTY) == {};
    var db := CollectRun(EMPTY, Some(urls), FreshPage, hash, 2 * |urls|).0;
    var i, j :| 0 <= i < j < |urls| && urls[i] == urls[j];
    assert db.sources[i].uri == db.sources[j].uri;
  }

  /** At most one row per URI over all histories: exactly when the search checkpoint lists no URI twice. */
  lemma OneRowIffDistinctUrls(urls: seq<string>, norm: Normalizer, hash: Digest)
    requires Injective(hash) && ColonFree(hash)
    ensures NoDup(urls) <==> forall events: seq<Event> :: OneRowPerUri(PlayAll(events, urls, norm, hash))
  {
    if NoDup(urls) {
      forall events: seq<Event> ensures OneRowPerUri(PlayAll(events, urls, norm, hash)) {
        HistoryKeeps(events, urls, norm, hash);
      }
    } else {
      TwoRowsForOneUri(urls, norm, hash);
    }
  }

  /**
   From search to sources: whatever the connector finds, each URI keeps one row over all
   histories exactly when redacting the checkpoint does not merge two of the URIs found.
   */
  lemma OneRowIffRedactionKeepsApart(hits: seq<string>, redact: string -> string, norm: Normalizer, hash: Digest)
    requires Injective(hash) && ColonFree(hash)
    ensures (forall u, v | u in hits && v in hits && u != v :: redact(u) != redact(v))
       <==> forall events: seq<Event> ::
              OneRowPerUri(PlayAll(events, Search.SavedUrls(Dedupe(hits), redact), norm, hash))
  {
    Search.SavedUrlsDistinct(hits, redact);
    OneRowIffDistinctUrls(Search.SavedUrls(Dedupe(hits), redact), norm, hash);
  }

  /** Two links that differ only in a token are one URI after redaction, and that URI can get two rows. */
  lemma TokenLinksMerge(redact: string -> string, norm: Normalizer, hash: Digest)
    requires Injective(hash) && ColonFree(hash)
    requires redact("https://a.example/?token=x") == redact("https://a.example/?token=y")
          == "https://a.example/?[REDACTED]"
    ensures var urls := Search.SavedUrls(Dedupe(["https://a.example/?token=x", "https://a.example/?token=y"]), redact);
      exists events: seq<Event> :: !OneRowPerUri(PlayAll(events, urls, norm, hash))
  {
    var x, y := "https://a.example/?token=x", "https://a.example/?token=y";
    assert x in [x, y] && y in [x, y] && x[25] != y[25];
    OneRowIffRedactionKeepsApart([x, y], redact, norm, hash);
  }
}
