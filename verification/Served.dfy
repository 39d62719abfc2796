/** Where the rows of collect come from: each is what one position of the URL list was served, over every history. */
module Served {
  import opened Prelude
  import opened Ingest
  import opened IngestProofs

  /** Source `i` and its audit row are those of a visit to `uri` that was answered like this. */
  ghost predicate RowServed(db: Db, i: nat, uri: string, visit: Visit, hash: Digest)
    requires i < |db.sources| == |db.replies| == |db.audits|
  {
    var row, note, listed := db.sources[i], db.audits[i], "file://" <= uri || visit.allowed;
    && row.uri == uri && row.allowlisted == listed && note.source == i
    && if !listed then
         && row.status == Quarantined && row.kind == "other" && row.digest == hash(uri)
         && note.action == "source.quarantined"
       else
         match visit.reply
         case OtherError => false
         case FetchError =>
           && row.status == Failed && row.kind == "other" && row.digest == hash(uri)
           && note.action == "source.fetch_failed"
         case Page(content, kind, isUnsafe) =>
           && row.kind == kind
           && if isUnsafe then
                row.status == Quarantined && row.digest == hash(content) && note.action == "source.quarantined"
              else
                && (row.status == Fetched || row.status == Normalized) && row.digest == hash(hash(content) + ":" + uri)
                && db.replies[i] == content && note.action == "source.fetched"
  }

  /** The tables keep one audit row and one reply per source. */
  ghost predicate Aligned(db: Db) {
    |db.sources| == |db.replies| == |db.audits|
  }

  lemma RecordAdds(st: Collecting, source: Source, action: string, decision: string, reply: string)
    requires Aligned(st.db) && st.live
    ensures var r, n := Record(st, source, action, decision, reply), |st.db.sources|;
      && Aligned(r.db) && Grows(st.db, r.db)
      && (!r.live ==> |r.db.sources| == n)
      && (r.live ==>
            && |r.db.sources| == n + 1 && r.db.sources[n] == source
            && r.db.audits[n] == Audit(n, action, decision) && r.db.replies[n] == reply)
  {
  }

  /** A visit that gets through adds the row it was served, and one that does not adds nothing. */
  lemma VisitServes(st: Collecting, uri: string, visit: Visit, hash: Digest)
    requires Aligned(st.db) && st.live
    ensures var r, n := CollectOne(st, uri, visit, hash), |st.db.sources|;
      && Aligned(r.db) && Grows(st.db, r.db)
      && (!r.live ==> |r.db.sources| == n)
      && (r.live ==> |r.db.sources| == n + 1 && RowServed(r.db, n, uri, visit, hash))
  {
    if !IsFileUri(uri) && !visit.allowed {
      RecordAdds(st, Source(uri, "other", hash(uri), None, false, Quarantined),
                 "source.quarantined", "quarantined", "");
    } else if visit.reply.FetchError? {
      RecordAdds(st, Source(uri, "other", hash(uri), None, true, Failed), "source.fetch_failed", "failed", "");
    } else if visit.reply.Page? {
      PageServes(st, uri, visit, hash);
    }
  }

  lemma PageServes(st: Collecting, uri: string, visit: Visit, hash: Digest)
    requires Aligned(st.db) && st.live && (IsFileUri(uri) || visit.allowed) && visit.reply.Page?
    ensures var r, n := CollectOne(st, uri, visit, hash), |st.db.sources|;
      && Aligned(r.db) && Grows(st.db, r.db)
      && (!r.live ==> |r.db.sources| == n)
      && (r.live ==> |r.db.sources| == n + 1 && RowServed(r.db, n, uri, visit, hash))
  {
    var content, kind := visit.reply.content, visit.reply.kind;
    if visit.reply.isUnsafe {
      RecordAdds(st, Source(uri, kind, hash(content), None, true, Quarantined),
                 "source.quarantined", "quarantined", "");
    } else {
      var put := PutBlob(st, hash(content), content);
      if put.live {
        RecordAdds(put,
                   Source(uri, kind, hash(hash(content) + ":" + uri), Some(put.seen[hash(content)]), true, Fetched),
                   "source.fetched", "fetched", content);
      }
    }
  }

  /** Rows that were there are as served as before. */
  lemma StillServed(a: Db, b: Db, i: nat, uri: string, visit: Visit, hash: Digest)
    requires Aligned(a) && Aligned(b) && Grows(a, b) && i < |a.sources| && RowServed(a, i, uri, visit, hash)
    ensures RowServed(b, i, uri, visit, hash)
  {
    assert b.sources[i] == a.sources[i] && b.audits[i] == a.audits[i] && b.replies[i] == a.replies[i];
  }

  predicate Rising(from: seq<nat>) {
    forall i, j | 0 <= i < j < |from| :: from[i] < from[j]
  }

  /** The list names at `n` a URI that had no row when the attempt began. */
  predicate NewAt(before: Db, urls: seq<string>, n: nat) {
    n < |urls| && urls[n] !in KnownUris(before)
  }

  /** The rows added are those served at the positions `from`, in their order; none before the last is left out. */
  ghost predicate RowsFrom(before: Db, db: Db, urls: seq<string>, visit: nat -> Visit, hash: Digest, from: seq<nat>) {
    && Aligned(db) && Grows(before, db) && |from| == |db.sources| - |before.sources| && Rising(from)
    && (forall j | 0 <= j < |from| ::
          NewAt(before, urls, from[j]) && RowServed(db, |before.sources| + j, urls[from[j]], visit(from[j]), hash))
    && (forall n: nat, j | 0 <= j < |from| && n <= from[j] && NewAt(before, urls, n) :: n in from)
  }

  /** The attempt visited every new position. */
  ghost predicate AllVisited(before: Db, urls: seq<string>, from: seq<nat>) {
    forall n: nat | NewAt(before, urls, n) :: n in from
  }

  lemma {:induction false} LoopServes(db: Db, writes: nat, urls: seq<string>, visit: nat -> Visit, hash: Digest)
    returns (from: seq<nat>)
    requires Aligned(db)
    ensures var r := CollectAll(StartCollect(db, writes), urls, KnownUris(db), visit, hash);
      RowsFrom(db, r.db, urls, visit, hash, from) && (r.live ==> AllVisited(db, urls, from))
  {
    from := [];
    if urls != [] {
      var n, front := |urls| - 1, urls[..|urls| - 1];
      from := LoopServes(db, writes, front, visit, hash);
      var b := CollectAll(StartCollect(db, writes), front, KnownUris(db), visit, hash);
      ListGrows(db, b.db, front, urls[n], visit, hash, from, b.live);
      assert front + [urls[n]] == urls;
      if b.live && NewAt(db, urls, n) {
        VisitServes(b, urls[n], visit(n), hash);
        var r := CollectOne(b, urls[n], visit(n), hash);
        if r.live {
          RowsSnoc(db, b.db, r.db, urls, visit, hash, from);
          from := from + [n];
        } else {
          assert b.db.sources == r.db.sources;
          RowsSame(db, b.db, r.db, urls, visit, hash, from);
        }
      }
    }
  }

  /** The list grows by one URI. */
  lemma ListGrows(before: Db, db: Db, front: seq<string>, uri: string, visit: nat -> Visit, hash: Digest,
                  from: seq<nat>, live: bool)
    requires RowsFrom(before, db, front, visit, hash, from) && (live ==> AllVisited(before, front, from))
    ensures RowsFrom(before, db, front + [uri], visit, hash, from)
    ensures live && uri in KnownUris(before) ==> AllVisited(before, front + [uri], from)
    ensures live ==> forall n: nat | n < |front| && NewAt(before, front + [uri], n) :: n in from
  {
    var urls := front + [uri];
    forall n: nat | n < |front| ensures NewAt(before, urls, n) == NewAt(before, front, n) && urls[n] == front[n] {
    }
    forall n: nat, j | 0 <= j < |from| && n <= from[j] && NewAt(before, urls, n) ensures n in from {
      assert NewAt(before, front, from[j]);
      assert NewAt(before, front, n);
    }
  }

  /** One more row. */
  lemma RowsSnoc(before: Db, b: Db, r: Db, urls: seq<string>, visit: nat -> Visit, hash: Digest, from: seq<nat>)
    requires urls != [] && NewAt(before, urls, |urls| - 1) && RowsFrom(before, b, urls, visit, hash, from)
    requires forall n: nat | n < |urls| - 1 && NewAt(before, urls, n) :: n in from
    requires forall j | 0 <= j < |from| :: from[j] < |urls| - 1
    requires Aligned(r) && Grows(b, r) && |r.sources| == |b.sources| + 1
    requires RowServed(r, |b.sources|, urls[|urls| - 1], visit(|urls| - 1), hash)
    ensures RowsFrom(before, r, urls, visit, hash, from + [|urls| - 1]) && AllVisited(before, urls, from + [|urls| - 1])
  {
    var n := |urls| - 1;
    var more := from + [n];
    assert more[|from|] == n;
    forall j | 0 <= j < |more| ensures
      NewAt(before, urls, more[j]) && RowServed(r, |before.sources| + j, urls[more[j]], visit(more[j]), hash)
    {
      if j < |from| {
        StillServed(b, r, |before.sources| + j, urls[from[j]], visit(from[j]), hash);
      }
    }
    forall m: nat | NewAt(before, urls, m) ensures m in more {
      assert m < n ==> m in from;
    }
  }

  lemma RowsSame(before: Db, b: Db, r: Db, urls: seq<string>, visit: nat -> Visit, hash: Digest, from: seq<nat>)
    requires RowsFrom(before, b, urls, visit, hash, from) && Aligned(r) && Grows(b, r) && r.sources == b.sources
    ensures RowsFrom(before, r, urls, visit, hash, from)
  {
    forall j | 0 <= j < |from|
      ensures RowServed(r, |before.sources| + j, urls[from[j]], visit(from[j]), hash)
    {
      StillServed(b, r, |before.sources| + j, urls[from[j]], visit(from[j]), hash);
    }
  }

  /**
   A collect attempt, wherever it ends, has added the rows its visits were served, in list order and
   without a gap: one per URI that had no row when it began, with the kind and the bytes of the page,
   and all of them if it returned.
   */
  lemma RowsAreServed(db: Db, urls: seq<string>, visit: nat -> Visit, hash: Digest, writes: nat)
    returns (from: seq<nat>)
    requires SourcesOk(db)
    ensures var (db', end) := CollectRun(db, Some(urls), visit, hash, writes);
      RowsFrom(db, db', urls, visit, hash, from) && (end.Returned? ==> AllVisited(db, urls, from))
  {
    if urls == [] {
      from := [];
    } else {
      from := LoopServes(db, writes, urls, visit, hash);
    }
  }

  // -------------------------------------------------------------------- histories

  lemma {:induction false} StoreKeepsNotes(st: Storing, jobs: seq<Job>, stored: set<string>, norm: Normalizer,
                                           hash: Digest)
    ensures StoreAll(st, jobs, stored, norm, hash).db.audits == st.db.audits
  {
    if jobs != [] {
      StoreKeepsNotes(st, jobs[..|jobs| - 1], stored, norm, hash);
    }
  }

  /** Storing leaves every row as served. */
  lemma StoreServes(db: Db, norm: Normalizer, hash: Digest, writes: nat, i: nat, uri: string, visit: Visit)
    requires SourcesOk(db) && PassagesOk(db, norm, hash) && i < |db.sources| && RowServed(db, i, uri, visit, hash)
    ensures var db' := StoreRun(db, norm, hash, writes).0;
      Aligned(db') && i < |db'.sources| && RowServed(db', i, uri, visit, hash)
  {
    StoreRunKeeps(db, norm, hash, writes);
    var jobs := FetchedJobs(db.sources);
    StoreKeepsNotes(Storing(db, 0, writes, true), jobs, StoredDigests(db, jobs), norm, hash);
    var db' := StoreRun(db, norm, hash, writes).0;
    assert db'.sources[i] in {db.sources[i], db.sources[i].(status := Normalized)};
    assert db'.sources[i].rawRef == db.sources[i].rawRef;
    assert HasText(db'.sources[i].status) <==> HasText(db.sources[i].status);
  }

  /** In every reachable state each source row is what some collect attempt was served at some position of the list. */
  lemma {:induction false} HistoryServes(events: seq<Event>, urls: seq<string>, norm: Normalizer, hash: Digest, i: nat)
    returns (e: nat, k: nat)
    requires Injective(hash) && i < |PlayAll(events, urls, norm, hash).sources|
    ensures Aligned(PlayAll(events, urls, norm, hash))
    ensures e < |events| && events[e].CollectAttempt? && k < |urls|
    ensures RowServed(PlayAll(events, urls, norm, hash), i, urls[k], events[e].visit(k), hash)
  {
    HistoryKeeps(events, urls, norm, hash);
    var n := |events| - 1;
    var before := PlayAll(events[..n], urls, norm, hash);
    HistoryKeeps(events[..n], urls, norm, hash);
    match events[n]
    case CollectAttempt(visit, writes) =>
      var from := RowsAreServed(before, urls, visit, hash, writes);
      if i < |before.sources| {
        e, k := HistoryServes(events[..n], urls, norm, hash, i);
        StillServed(before, PlayAll(events, urls, norm, hash), i, urls[k], events[e].visit(k), hash);
      } else {
        e, k := n, from[i - |before.sources|];
      }
    case StoreAttempt(writes) =>
      StoreRunKeeps(before, norm, hash, writes);
      e, k := HistoryServes(events[..n], urls, norm, hash, i);
      StoreServes(before, norm, hash, writes, i, urls[k], events[e].visit(k));
  }

  /**
   In every reachable state each source is what one attempt was served at one position of the list.
   If it is not normalized it has no passages; if it is, they are numbered 0..n-1, have at most 1200
   characters each, carry the digests of their texts, tile the text that the page served there
   normalizes to under the kind served there, and read back as exactly that text.
   */
  lemma PassagesReadBack(events: seq<Event>, urls: seq<string>, norm: Normalizer, hash: Digest, i: nat)
    returns (n: nat, e: nat, k: nat)
    requires Injective(hash) && i < |PlayAll(events, urls, norm, hash).sources|
    ensures var db := PlayAll(events, urls, norm, hash);
      && Aligned(db) && e < |events| && events[e].CollectAttempt? && k < |urls|
      && RowServed(db, i, urls[k], events[e].visit(k), hash)
      && (db.sources[i].status != Normalized ==> n == 0)
      && (forall m: nat :: (i, m) in db.passages <==> m < n)
      && (forall m: nat | m < n ::
            0 < |db.passages[(i, m)].text| <= 1200 && db.passages[(i, m)].digest == hash(db.passages[(i, m)].text))
      && (db.sources[i].status == Normalized ==>
            var page := events[e].visit(k).reply;
            && page.Page? && !page.isUnsafe && norm(page.kind, page.content) == Some(ReadBack(db, i, n))
            && OffsetsTile(db, i, n))
  {
    HistoryKeeps(events, urls, norm, hash);
    e, k := HistoryServes(events, urls, norm, hash, i);
    var db := PlayAll(events, urls, norm, hash);
    if db.sources[i].status == Normalized {
      n := AssembledReadsBack(db, i, norm, hash);
      forall m: nat | m < n
        ensures 0 < |db.passages[(i, m)].text| <= 1200 && db.passages[(i, m)].digest == hash(db.passages[(i, m)].text)
      {
        PassageFits(db, i, m, norm, hash);
      }
    } else {
      n := 0;
    }
  }
}
