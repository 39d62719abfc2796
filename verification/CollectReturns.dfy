/** Exactly when a collect attempt gets to its end, and the unsafe pages that keep it from ever doing so. */
module CollectReturns {
  import opened Prelude
  import opened Ingest
  import IngestProofs

  predicate Admitted(uri: string, visit: Visit) {
    IsFileUri(uri) || visit.allowed
  }

  /** The key of the row a URI would get; `None` is an error that is not a fetch error. */
  function KeyOf(uri: string, visit: Visit, hash: Digest): Option<string> {
    if !Admitted(uri, visit) then Some(hash(uri))
    else
      match visit.reply
      case OtherError => None
      case FetchError => Some(hash(uri))
      case Page(content, _, isUnsafe) => Some(if isUnsafe then hash(content) else hash(hash(content) + ":" + uri))
  }

  /** The digest under which the URI's bytes are to be found in the blob store. */
  function BlobKey(uri: string, visit: Visit, hash: Digest): Option<string> {
    if Admitted(uri, visit) && visit.reply.Page? && !visit.reply.isUnsafe then Some(hash(visit.reply.content)) else None
  }

  /** A position is visited unless its URI had a row when the attempt began. */
  predicate Visited(urls: seq<string>, known: set<string>, n: nat) {
    n < |urls| && urls[n] !in known
  }

  ghost predicate KeyUsed(urls: seq<string>, known: set<string>, visit: nat -> Visit, hash: Digest, key: string) {
    exists n: nat :: Visited(urls, known, n) && KeyOf(urls[n], visit(n), hash) == Some(key)
  }

  ghost predicate BlobUsed(urls: seq<string>, known: set<string>, visit: nat -> Visit, hash: Digest, key: string) {
    exists n: nat :: Visited(urls, known, n) && BlobKey(urls[n], visit(n), hash) == Some(key)
  }

  /** The durable writes of a whole attempt: a row for each visit, and a blob for each page not stored before. */
  ghost function WritesNeeded(urls: seq<string>, known: set<string>, visit: nat -> Visit, hash: Digest): nat {
    if urls == [] then 0
    else
      var n := |urls| - 1;
      var front := urls[..n];
      var blob := BlobKey(urls[n], visit(n), hash);
      WritesNeeded(front, known, visit, hash)
      + (if urls[n] in known then 0
         else if blob.Some? && !BlobUsed(front, known, visit, hash, blob.value) then 2 else 1)
  }

  /** No visit raises, no key is taken, and no two visits have the same key. */
  ghost predicate KeysFree(db: Db, urls: seq<string>, known: set<string>, visit: nat -> Visit, hash: Digest) {
    && (forall n: nat | Visited(urls, known, n) ::
          KeyOf(urls[n], visit(n), hash).Some? && !DigestTaken(db, KeyOf(urls[n], visit(n), hash).value))
    && (forall m: nat, n: nat | m < n && Visited(urls, known, m) && Visited(urls, known, n) ::
          KeyOf(urls[m], visit(m), hash) != KeyOf(urls[n], visit(n), hash))
  }

  // -------------------------------------------------------------------- one visit

  lemma TakenSnoc(db: Db, source: Source, key: string)
    ensures DigestTaken(db.(sources := db.sources + [source]), key) <==> DigestTaken(db, key) || source.digest == key
  {
    var all := db.sources + [source];
    assert all[|db.sources|] == source;
    assert forall i | 0 <= i < |db.sources| :: all[i] == db.sources[i];
  }

  /**
   A visit gets through exactly when it does not raise, its key is free, and the writes suffice; then it
   takes that key.
   */
  lemma VisitLiveIff(st: Collecting, uri: string, visit: Visit, hash: Digest)
    requires st.live
    ensures var r, key, blob := CollectOne(st, uri, visit, hash), KeyOf(uri, visit, hash), BlobKey(uri, visit, hash);
      var cost := if blob.Some? && blob.value !in st.seen then 2 else 1;
      && (r.live <==> key.Some? && !DigestTaken(st.db, key.value) && st.writes >= cost)
      && (r.live ==>
            && |r.db.sources| == |st.db.sources| + 1 && r.db.sources[..|st.db.sources|] == st.db.sources
            && r.db.sources[|st.db.sources|].uri == uri && r.db.sources[|st.db.sources|].digest == key.value
            && r.writes == st.writes - cost
            && r.seen.Keys == st.seen.Keys + (if blob.Some? then {blob.value} else {}))
      && (!r.live ==> r.db.sources == st.db.sources)
  {
  }

  lemma VisitTakes(st: Collecting, uri: string, visit: Visit, hash: Digest, key: string)
    requires st.live && CollectOne(st, uri, visit, hash).live
    ensures DigestTaken(CollectOne(st, uri, visit, hash).db, key)
       <==> DigestTaken(st.db, key) || KeyOf(uri, visit, hash) == Some(key)
  {
    VisitLiveIff(st, uri, visit, hash);
    var r := CollectOne(st, uri, visit, hash);
    var row := r.db.sources[|st.db.sources|];
    assert r.db.sources == st.db.sources + [row];
    TakenSnoc(st.db, row, key);
  }

  // -------------------------------------------------------------------- the loop

  lemma UsedSnoc(urls: seq<string>, known: set<string>, visit: nat -> Visit, hash: Digest, key: string)
    requires urls != []
    ensures var n, front := |urls| - 1, urls[..|urls| - 1];
      && (KeyUsed(urls, known, visit, hash, key) <==>
            KeyUsed(front, known, visit, hash, key)
              || (urls[n] !in known && KeyOf(urls[n], visit(n), hash) == Some(key)))
      && (BlobUsed(urls, known, visit, hash, key) <==>
            BlobUsed(front, known, visit, hash, key)
              || (urls[n] !in known && BlobKey(urls[n], visit(n), hash) == Some(key)))
  {
    var n, front := |urls| - 1, urls[..|urls| - 1];
    forall m: nat | Visited(front, known, m) ensures Visited(urls, known, m) && urls[m] == front[m] {
    }
    forall m: nat | Visited(urls, known, m) && m != n ensures Visited(front, known, m) && urls[m] == front[m] {
    }
    if urls[n] !in known {
      assert Visited(urls, known, n);
    }
  }

  lemma KeysFreeSnoc(db: Db, urls: seq<string>, known: set<string>, visit: nat -> Visit, hash: Digest)
    requires urls != []
    ensures var n, front := |urls| - 1, urls[..|urls| - 1];
      var key := KeyOf(urls[n], visit(n), hash);
      KeysFree(db, urls, known, visit, hash) <==>
        && KeysFree(db, front, known, visit, hash)
        && (urls[n] !in known ==>
              key.Some? && !DigestTaken(db, key.value) && !KeyUsed(front, known, visit, hash, key.value))
  {
    var n, front := |urls| - 1, urls[..|urls| - 1];
    forall m: nat | m != n
      ensures Visited(front, known, m) == Visited(urls, known, m) && (m < n ==> urls[m] == front[m])
    {
    }
  }

  /** What the loop has used up to some position, if it got there. */
  ghost predicate UsedSoFar(db: Db, st: Collecting, urls: seq<string>, known: set<string>, visit: nat -> Visit,
                            hash: Digest, writes: nat) {
    && (forall key :: DigestTaken(st.db, key) <==> DigestTaken(db, key) || KeyUsed(urls, known, visit, hash, key))
    && (forall key :: key in st.seen <==> BlobUsed(urls, known, visit, hash, key))
    && st.writes == writes - WritesNeeded(urls, known, visit, hash)
  }

  lemma {:induction false} LoopLiveIff(db: Db, urls: seq<string>, known: set<string>, visit: nat -> Visit, hash: Digest,
                                       writes: nat)
    ensures var st := CollectAll(StartCollect(db, writes), urls, known, visit, hash);
      && (st.live <==> KeysFree(db, urls, known, visit, hash) && writes >= WritesNeeded(urls, known, visit, hash))
      && (st.live ==> UsedSoFar(db, st, urls, known, visit, hash, writes))
  {
    if urls != [] {
      var n, front := |urls| - 1, urls[..|urls| - 1];
      LoopLiveIff(db, front, known, visit, hash, writes);
      KeysFreeSnoc(db, urls, known, visit, hash);
      var b := CollectAll(StartCollect(db, writes), front, known, visit, hash);
      forall key {
        UsedSnoc(urls, known, visit, hash, key);
      }
      if b.live && urls[n] !in known {
        VisitLiveIff(b, urls[n], visit(n), hash);
        if CollectOne(b, urls[n], visit(n), hash).live {
          forall key {
            VisitTakes(b, urls[n], visit(n), hash, key);
          }
        }
      }
    }
  }

  /**
   An attempt returns exactly when the checkpoint has URLs, no visit raises anything but a fetch
   error, the keys of its rows are free and all different, and it lives for the writes it needs.
   */
  lemma ReturnsIff(db: Db, urls: Option<seq<string>>, visit: nat -> Visit, hash: Digest, writes: nat)
    ensures CollectRun(db, urls, visit, hash, writes).1.Returned? <==>
              && urls.Some? && urls.value != []
              && KeysFree(db, urls.value, KnownUris(db), visit, hash)
              && writes >= WritesNeeded(urls.value, KnownUris(db), visit, hash)
  {
    if urls.Some? {
      LoopLiveIff(db, urls.value, KnownUris(db), visit, hash, writes);
    }
  }

  /** Twice the list is always enough to live for. */
  lemma {:induction false} WritesBound(urls: seq<string>, known: set<string>, visit: nat -> Visit, hash: Digest)
    ensures WritesNeeded(urls, known, visit, hash) <= 2 * |urls|
  {
    if urls != [] {
      WritesBound(urls[..|urls| - 1], known, visit, hash);
    }
  }

  /** An attempt that lives for two writes per URL returns exactly when there are URLs and their keys are free. */
  lemma UninterruptedReturnsIff(db: Db, urls: Option<seq<string>>, visit: nat -> Visit, hash: Digest, writes: nat)
    requires urls.Some? ==> writes >= 2 * |urls.value|
    ensures CollectRun(db, urls, visit, hash, writes).1.Returned? <==>
              urls.Some? && urls.value != [] && KeysFree(db, urls.value, KnownUris(db), visit, hash)
  {
    ReturnsIff(db, urls, visit, hash, writes);
    if urls.Some? {
      WritesBound(urls.value, KnownUris(db), visit, hash);
    }
  }

  /** A refused URI that the checkpoint lists twice stops the first attempt: both rows would have the key of the URI. */
  lemma DeniedTwiceStops(db: Db, urls: seq<string>, i: nat, j: nat, visit: nat -> Visit, hash: Digest, writes: nat)
    requires i < j < |urls| && urls[i] == urls[j] && urls[i] !in KnownUris(db)
    requires !Admitted(urls[i], visit(i)) && !Admitted(urls[j], visit(j))
    ensures CollectRun(db, Some(urls), visit, hash, writes).1.Stopped?
  {
    ReturnsIff(db, Some(urls), visit, hash, writes);
    assert Visited(urls, KnownUris(db), i) && Visited(urls, KnownUris(db), j);
  }

  // -------------------------------------------------------------- unsafe twins

  /**
   Unsafe pages are keyed by their bytes alone: once a row has that key, a second URI that serves
   the same unsafe bytes stops every attempt that comes to it.
   */
  lemma UnsafeTwinStops(db: Db, urls: seq<string>, k: nat, visit: nat -> Visit, hash: Digest, writes: nat)
    requires k < |urls| && urls[k] !in KnownUris(db) && Admitted(urls[k], visit(k))
    requires visit(k).reply.Page? && visit(k).reply.isUnsafe && DigestTaken(db, hash(visit(k).reply.content))
    ensures CollectRun(db, Some(urls), visit, hash, writes).1.Stopped?
  {
    ReturnsIff(db, Some(urls), visit, hash, writes);
    assert Visited(urls, KnownUris(db), k);
  }

  /** Wherever the list names `u` or `v`, the visit is admitted and finds the unsafe page `content`. */
  ghost predicate Twins(urls: seq<string>, visit: nat -> Visit, u: string, v: string, content: string) {
    forall n: nat | n < |urls| && urls[n] in {u, v} ::
      Admitted(urls[n], visit(n)) && visit(n).reply.Page? && visit(n).reply.isUnsafe
        && visit(n).reply.content == content
  }

  /** The rows of the twins have the key of the page. */
  ghost predicate RowsKeyed(db: Db, u: string, v: string, key: string) {
    forall i | 0 <= i < |db.sources| && db.sources[i].uri in {u, v} :: db.sources[i].digest == key
  }

  lemma {:induction false} LoopKeys(db: Db, urls: seq<string>, known: set<string>, visit: nat -> Visit, hash: Digest,
                                    writes: nat, u: string, v: string, content: string)
    requires RowsKeyed(db, u, v, hash(content)) && Twins(urls, visit, u, v, content)
    ensures RowsKeyed(CollectAll(StartCollect(db, writes), urls, known, visit, hash).db, u, v, hash(content))
  {
    if urls != [] {
      var n, front := |urls| - 1, urls[..|urls| - 1];
      assert forall m: nat | m < n :: urls[m] == front[m];
      LoopKeys(db, front, known, visit, hash, writes, u, v, content);
      var b := CollectAll(StartCollect(db, writes), front, known, visit, hash);
      if b.live && urls[n] !in known {
        VisitLiveIff(b, urls[n], visit(n), hash);
        var r := CollectOne(b, urls[n], visit(n), hash);
        assert r.live ==> forall i | 0 <= i < |b.db.sources| :: r.db.sources[i] == b.db.sources[i];
      }
    }
  }

  ghost predicate TwinHistory(events: seq<IngestProofs.Event>, urls: seq<string>, u: string, v: string,
                              content: string) {
    forall e | e in events && e.CollectAttempt? :: Twins(urls, e.visit, u, v, content)
  }

  lemma {:induction false} HistoryKeys(events: seq<IngestProofs.Event>, urls: seq<string>, norm: Normalizer,
                                       hash: Digest, u: string, v: string, content: string)
    requires Injective(hash) && TwinHistory(events, urls, u, v, content)
    ensures RowsKeyed(IngestProofs.PlayAll(events, urls, norm, hash), u, v, hash(content))
  {
    if events != [] {
      var n := |events| - 1;
      assert events[n] in events;
      HistoryKeys(events[..n], urls, norm, hash, u, v, content);
      var db := IngestProofs.PlayAll(events[..n], urls, norm, hash);
      IngestProofs.HistoryKeeps(events[..n], urls, norm, hash);
      match events[n]
      case CollectAttempt(visit, writes) =>
        LoopKeys(db, urls, KnownUris(db), visit, hash, writes, u, v, content);
      case StoreAttempt(writes) =>
        IngestProofs.StoreRunKeeps(db, norm, hash, writes);
    }
  }

  /** From an empty run the first of two twins takes the key, and the second gets no row. */
  lemma FirstTwinTakesTheKey(u: string, v: string, visit: nat -> Visit, hash: Digest, writes: nat, content: string)
    requires u != v && writes > 0 && Twins([u, v], visit, u, v, content)
    ensures var (db, end) := CollectRun(EMPTY, Some([u, v]), visit, hash, writes);
      end.Stopped? && DigestTaken(db, hash(content)) && KnownUris(db) == {u}
  {
    var urls := [u, v];
    var start, known := StartCollect(EMPTY, writes), KnownUris(EMPTY);
    assert urls[0] == u && urls[1] == v && urls[..1] == [u] && [u][..0] == [];
    var first, last := CollectAll(start, [u], known, visit, hash), CollectAll(start, urls, known, visit, hash);
    assert first == CollectOne(CollectAll(start, [], known, visit, hash), u, visit(0), hash);
    VisitLiveIff(start, u, visit(0), hash);
    VisitTakes(start, u, visit(0), hash, hash(content));
    assert last == CollectOne(first, v, visit(1), hash);
    VisitLiveIff(first, v, visit(1), hash);
    assert first.db.sources[0].uri == u && last.db.sources == first.db.sources;
  }

  /**
   Two URIs of one list that keep serving the same unsafe bytes: from an empty run, over every
   history of collect and store attempts, no collect attempt ever returns.
   */
  lemma TwinsNeverCollected(events: seq<IngestProofs.Event>, urls: seq<string>, visit: nat -> Visit, writes: nat,
                            norm: Normalizer, hash: Digest, u: string, v: string, content: string)
    requires Injective(hash) && u != v && u in urls && v in urls
    requires TwinHistory(events, urls, u, v, content) && Twins(urls, visit, u, v, content)
    ensures CollectRun(IngestProofs.PlayAll(events, urls, norm, hash), Some(urls), visit, hash, writes).1.Stopped?
  {
    var db := IngestProofs.PlayAll(events, urls, norm, hash);
    var (after, end) := CollectRun(db, Some(urls), visit, hash, writes);
    HistoryKeys(events, urls, norm, hash, u, v, content);
    IngestProofs.HistoryKeeps(events, urls, norm, hash);
    IngestProofs.CollectRunKeeps(db, urls, visit, norm, hash, writes);
    LoopKeys(db, urls, KnownUris(db), visit, hash, writes, u, v, content);
    if end.Returned? {
      TwoRows(after, u, v, hash(content));
    }
  }

  lemma TwoRows(db: Db, u: string, v: string, key: string)
    requires SourcesOk(db) && RowsKeyed(db, u, v, key) && u != v
    ensures !(u in KnownUris(db) && v in KnownUris(db))
  {
  }
}
