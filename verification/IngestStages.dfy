/** The collect and store stages as they run, proved equal to the functions of `Ingest`. */
module IngestStages {
  import opened Prelude
  import opened Ingest
  import Chunker

  /** The database and blob store; assigning `db` is a commit. */
  class Tables {
    var db: Db

    constructor ()
      ensures db == EMPTY
    {
      db := EMPTY;
    }

    /** `_record_source`: `ok` is false when the insert raises or the process dies before the commit. */
    method RecordSource(source: Source, action: string, decision: string, reply: string, writes: nat)
        returns (ok: bool, left: nat)
      modifies this
      ensures ok == (!DigestTaken(old(db), source.digest) && writes > 0)
      ensures left == if ok then writes - 1 else writes
      ensures db == if ok then
                      old(db).(sources := old(db).sources + [source],
                               audits := old(db).audits + [Audit(|old(db).sources|, action, decision)],
                               replies := old(db).replies + [reply])
                    else old(db)
    {
      if DigestTaken(db, source.digest) || writes == 0 {
        return false, writes;
      }
      var id := |db.sources|;
      db := db.(sources := db.sources + [source],
                audits := db.audits + [Audit(id, action, decision)],
                replies := db.replies + [reply]);
      return true, writes - 1;
    }

    /** The body of the collect loop for one URI: the new state of the loop, not `live` if the stage ends here. */
    method CollectUri(st: Collecting, uri: string, visit: Visit, hash: Digest) returns (next: Collecting)
      requires st.live && st.db == db
      modifies this
      ensures next == CollectOne(st, uri, visit, hash) && db == next.db
    {
      var ok: bool, left: nat;
      var fetched, quarantined, failed := st.tally.fetched, st.tally.quarantined, st.tally.failed;
      if !IsFileUri(uri) && !visit.allowed {
        ok, left := RecordSource(Source(uri, "other", hash(uri), None, false, Quarantined),
                                 "source.quarantined", "quarantined", "", st.writes);
        quarantined := if ok then quarantined + 1 else quarantined;
        return Collecting(db, st.seen, Tally(fetched, quarantined, failed), left, ok);
      }
      match visit.reply
      case OtherError =>
        return st.(live := false);
      case FetchError =>
        ok, left := RecordSource(Source(uri, "other", hash(uri), None, true, Failed),
                                 "source.fetch_failed", "failed", "", st.writes);
        failed := if ok then failed + 1 else failed;
        return Collecting(db, st.seen, Tally(fetched, quarantined, failed), left, ok);
      case Page(content, kind, isUnsafe) =>
        if isUnsafe {
          ok, left := RecordSource(Source(uri, kind, hash(content), None, true, Quarantined),
                                   "source.quarantined", "quarantined", "", st.writes);
          quarantined := if ok then quarantined + 1 else quarantined;
          return Collecting(db, st.seen, Tally(fetched, quarantined, failed), left, ok);
        }
        next := StorePage(st, uri, content, kind, hash);
    }

    /** A harmless page: its bytes unless the attempt stored them already, then its row. */
    method StorePage(st: Collecting, uri: string, content: string, kind: string, hash: Digest)
      returns (next: Collecting)
      requires st.live && st.db == db
      modifies this
      ensures next == CollectOne(st, uri, Visit(true, Page(content, kind, false)), hash) && db == next.db
    {
      var digest, seen, left := hash(content), st.seen, st.writes;
      if digest !in seen {
        if left == 0 {
          return st.(live := false);
        }
        var ref := db.nextRef;
        db := db.(blobs := db.blobs[ref := content], nextRef := ref + 1);
        seen := seen[digest := ref];
        left := left - 1;
      }
      var ok: bool;
      ok, left := RecordSource(Source(uri, kind, hash(digest + ":" + uri), Some(seen[digest]), true, Fetched),
                               "source.fetched", "fetched", content, left);
      var tally := if ok then st.tally.(fetched := st.tally.fetched + 1) else st.tally;
      return Collecting(db, seen, tally, left, ok);
    }

    method RunCollect(checkpoint: Option<seq<string>>, visit: nat -> Visit, hash: Digest, writes: nat)
        returns (end: End<Tally>)
      modifies this
      ensures (db, end) == CollectRun(old(db), checkpoint, visit, hash, writes)
    {
      if checkpoint.None? || checkpoint.value == [] {
        return Stopped;
      }
      var urls := checkpoint.value;
      var existing := KnownUris(db);
      var st := StartCollect(db, writes);
      ghost var start := st;
      for k := 0 to |urls|
        invariant st.live && st.db == db && st == CollectAll(start, urls[..k], existing, visit, hash)
      {
        assert urls[..k + 1][..k] == urls[..k];
        if urls[k] in existing {
          continue;
        }
        StopsWhere(start, urls, k + 1, existing, visit, hash);
        st := CollectUri(st, urls[k], visit(k), hash);
        if !st.live {
          return Stopped;
        }
      }
      assert urls[..|urls|] == urls;
      return Returned(st.tally);
    }

    /** The body of the store loop for one source. */
    method StoreSource(st: Storing, job: Job, stored: set<string>, norm: Normalizer, hash: Digest)
      returns (next: Storing)
      requires st.live && st.db == db
      modifies this
      ensures next == StoreOne(st, job, stored, norm, hash) && db == next.db
    {
      var content := BlobOf(db, job.rawRef);
      if content.None? {
        return st.(live := false);
      }
      var text := norm(job.kind, content.value);
      if text.None? {
        return st.(live := false);
      }
      var chunks := Chunker.ChunkPassages(text.value, Chunker.CHUNK_MIN_CHARS, Chunker.CHUNK_MAX_CHARS);
      var rows := BuildRows(job.id, chunks, stored, hash);
      if !(rows.Keys !! db.passages.Keys) || st.writes == 0 {
        return st.(live := false);
      }
      db := db.(passages := db.passages + rows, sources := MarkNormalized(db.sources, job.id));
      return Storing(db, st.total + |chunks|, st.writes - 1, true);
    }

    method RunStore(norm: Normalizer, hash: Digest, writes: nat) returns (end: End<nat>)
      modifies this
      ensures (db, end) == StoreRun(old(db), norm, hash, writes)
    {
      var jobs := FetchedJobs(db.sources);
      if jobs == [] {
        return Returned(0);
      }
      var stored := StoredDigests(db, jobs);
      var st := Storing(db, 0, writes, true);
      ghost var start := st;
      for j := 0 to |jobs|
        invariant st.live && st.db == db && st == StoreAll(start, jobs[..j], stored, norm, hash)
      {
        assert jobs[..j + 1][..j] == jobs[..j];
        StoreStopsWhere(start, jobs, j + 1, stored, norm, hash);
        st := StoreSource(st, jobs[j], stored, norm, hash);
        if !st.live {
          return Stopped;
        }
      }
      assert jobs[..|jobs|] == jobs;
      return Returned(st.total);
    }
  }

  /** The inner loop of the store stage: the rows one session adds for a source. */
  method BuildRows(id: nat, chunks: seq<Chunker.Chunk>, stored: set<string>, hash: Digest)
    returns (rows: map<(nat, nat), Passage>)
    ensures rows == NewRows(id, chunks, stored, hash)
  {
    rows := map[];
    for seqNo := 0 to |chunks|
      invariant forall k: nat :: (id, k) in rows <==> k < seqNo && hash(chunks[k].text) !in stored
      invariant forall key | key in rows :: key.0 == id && rows[key] == ToPassage(chunks[key.1], hash)
    {
      var digest := hash(chunks[seqNo].text);
      if digest in stored {
        continue;
      }
      assert ToPassage(chunks[seqNo], hash).digest == digest;
      rows := rows[(id, seqNo) := Passage(chunks[seqNo].text, chunks[seqNo].start, chunks[seqNo].end, digest)];
    }
    forall key ensures key in rows <==> key in NewRows(id, chunks, stored, hash) {
      assert key == (key.0, key.1);
    }
  }

  lemma {:induction false} StopsWhere(st: Collecting, urls: seq<string>, k: nat, known: set<string>,
                                      visit: nat -> Visit, hash: Digest)
    requires k <= |urls|
    ensures var part := CollectAll(st, urls[..k], known, visit, hash);
      !part.live ==> CollectAll(st, urls, known, visit, hash) == part
  {
    if k == |urls| {
      assert urls[..k] == urls;
    } else {
      var n := |urls| - 1;
      assert urls[..n][..k] == urls[..k];
      StopsWhere(st, urls[..n], k, known, visit, hash);
    }
  }

  lemma {:induction false} StoreStopsWhere(st: Storing, jobs: seq<Job>, k: nat, stored: set<string>, norm: Normalizer,
                                           hash: Digest)
    requires k <= |jobs|
    ensures var part := StoreAll(st, jobs[..k], stored, norm, hash);
      !part.live ==> StoreAll(st, jobs, stored, norm, hash) == part
  {
    if k == |jobs| {
      assert jobs[..k] == jobs;
    } else {
      var n := |jobs| - 1;
      assert jobs[..n][..k] == jobs[..k];
      StoreStopsWhere(st, jobs[..n], k, stored, norm, hash);
    }
  }
}
