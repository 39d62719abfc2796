/**
 Collect and store for one run (`app/pipeline/stages/collect.py`, `app/pipeline/stages/store.py`).

 Both stages commit once per item and may be started again after they stopped anywhere.  An
 attempt takes what the outside world answers and `writes`, the number of durable writes
 (blob puts and commits) it lives to make: an exception and the death of the process both
 leave exactly the writes made so far.

 A source row is named by its position in `sources`, a blob by a counter; the source draws
 both from uuid4.  Bytes are strings, and the digest function is a parameter.
 */
module Ingest {
  import opened Prelude
  import Chunker

  datatype SourceStatus = Fetched | Failed | Quarantined | Normalized
  datatype Source = Source(uri: string, kind: string, digest: string, rawRef: Option<nat>, allowlisted: bool,
                           status: SourceStatus)
  datatype Audit = Audit(source: nat, action: string, decision: string)
  datatype Passage = Passage(text: string, start: nat, end: nat, digest: string)

  /** The tables and the blob store; `replies[i]` records what was fetched for source `i`. */
  datatype Db = Db(
    sources: seq<Source>,
    audits: seq<Audit>,
    passages: map<(nat, nat), Passage>,
    blobs: map<nat, string>,
    nextRef: nat,
    replies: seq<string>)

  const EMPTY := Db([], [], map[], map[], 0, [])

  type Digest = string -> string

  /** What the allowlist, the fetcher and the content filter say about one URI. */
  datatype Reply = FetchError | Page(content: string, kind: string, isUnsafe: bool) | OtherError
  datatype Visit = Visit(allowed: bool, reply: Reply)

  datatype End<T> = Returned(detail: T) | Stopped
  datatype Tally = Tally(fetched: nat, quarantined: nat, failed: nat)

  predicate IsFileUri(uri: string) {
    "file://" <= uri
  }

  // -------------------------------------------------------------------- collect

  /** The collect loop between two URIs; `seen` maps a content digest to its blob. */
  datatype Collecting = Collecting(db: Db, seen: map<string, nat>, tally: Tally, writes: nat, live: bool)

  /** The unique constraint on (run, content_hash). */
  predicate DigestTaken(db: Db, digest: string) {
    exists i | 0 <= i < |db.sources| :: db.sources[i].digest == digest
  }

  function Tallied(tally: Tally, status: SourceStatus): Tally {
    match status
    case Quarantined => tally.(quarantined := tally.quarantined + 1)
    case Failed => tally.(failed := tally.failed + 1)
    case _ => tally.(fetched := tally.fetched + 1)
  }

  /** `_record_source`: one source row and its audit row in one commit; the caller counts it by its status. */
  function Record(st: Collecting, source: Source, action: string, decision: string, reply: string): Collecting {
    if DigestTaken(st.db, source.digest) || st.writes == 0 then st.(live := false)
    else st.(
      db := st.db.(sources := st.db.sources + [source],
                   audits := st.db.audits + [Audit(|st.db.sources|, action, decision)],
                   replies := st.db.replies + [reply]),
      tally := Tallied(st.tally, source.status),
      writes := st.writes - 1)
  }

  /** Store the bytes of a page unless the same bytes were stored earlier in this attempt. */
  function PutBlob(st: Collecting, digest: string, content: string): Collecting {
    if digest in st.seen then st
    else if st.writes == 0 then st.(live := false)
    else st.(
      db := st.db.(blobs := st.db.blobs[st.db.nextRef := content], nextRef := st.db.nextRef + 1),
      seen := st.seen[digest := st.db.nextRef],
      writes := st.writes - 1)
  }

  function CollectOne(st: Collecting, uri: string, visit: Visit, hash: Digest): Collecting {
    if !IsFileUri(uri) && !visit.allowed then
      Record(st, Source(uri, "other", hash(uri), None, false, Quarantined), "source.quarantined", "quarantined", "")
    else
      match visit.reply
      case OtherError => st.(live := false)
      case FetchError =>
        Record(st, Source(uri, "other", hash(uri), None, true, Failed), "source.fetch_failed", "failed", "")
      case Page(content, kind, isUnsafe) =>
        if isUnsafe then
          Record(st, Source(uri, kind, hash(content), None, true, Quarantined), "source.quarantined", "quarantined", "")
        else
          var stored := PutBlob(st, hash(content), content);
          if !stored.live then stored
          else
            Record(stored,
                   Source(uri, kind, hash(hash(content) + ":" + uri), Some(stored.seen[hash(content)]), true, Fetched),
                   "source.fetched", "fetched", content)
  }

  /** The loop over the URL list; `known` are the URIs with a row before the attempt. */
  function CollectAll(st: Collecting, urls: seq<string>, known: set<string>, visit: nat -> Visit,
                      hash: Digest): Collecting {
    if urls == [] then st
    else
      var n := |urls| - 1;
      var before := CollectAll(st, urls[..n], known, visit, hash);
      if !before.live || urls[n] in known then before else CollectOne(before, urls[n], visit(n), hash)
  }

  function KnownUris(db: Db): set<string> {
    set i | 0 <= i < |db.sources| :: db.sources[i].uri
  }

  function StartCollect(db: Db, writes: nat): Collecting {
    Collecting(db, map[], Tally(0, 0, 0), writes, true)
  }

  /** A whole attempt; `None` or an empty list is a missing search checkpoint. */
  function CollectRun(db: Db, urls: Option<seq<string>>, visit: nat -> Visit, hash: Digest,
                      writes: nat): (Db, End<Tally>) {
    if urls.None? || urls.value == [] then (db, Stopped)
    else
      var st := CollectAll(StartCollect(db, writes), urls.value, KnownUris(db), visit, hash);
      (st.db, if st.live then Returned(st.tally) else Stopped)
  }

  // ---------------------------------------------------------------------- store

  /** What the stage remembers of a fetched source after its read session. */
  datatype Job = Job(id: nat, rawRef: Option<nat>, kind: string)

  datatype Storing = Storing(db: Db, total: nat, writes: nat, live: bool)

  type Normalizer = (string, string) -> Option<string>

  function ToPassage(c: Chunker.Chunk, hash: Digest): Passage {
    Passage(c.text, c.start, c.end, hash(c.text))
  }

  /** The passage rows one source adds: chunks whose digest is already stored are skipped. */
  function NewRows(id: nat, chunks: seq<Chunker.Chunk>, stored: set<string>, hash: Digest): map<(nat, nat), Passage> {
    map k: nat | k < |chunks| && hash(chunks[k].text) !in stored :: (id, k) := ToPassage(chunks[k], hash)
  }

  function TextChunks(text: string): seq<Chunker.Chunk> {
    Chunker.Chunks(text, Chunker.CHUNK_MIN_CHARS, Chunker.CHUNK_MAX_CHARS)
  }

  function BlobOf(db: Db, rawRef: Option<nat>): Option<string> {
    if rawRef.Some? && rawRef.value in db.blobs then Some(db.blobs[rawRef.value]) else None
  }

  function MarkNormalized(sources: seq<Source>, id: nat): seq<Source> {
    if id < |sources| then sources[id := sources[id].(status := Normalized)] else sources
  }

  /** One source: all its passages and its new status in one commit, or nothing. */
  function StoreOne(st: Storing, job: Job, stored: set<string>, norm: Normalizer, hash: Digest): Storing {
    var content := BlobOf(st.db, job.rawRef);
    if content.None? then st.(live := false)
    else
      var text := norm(job.kind, content.value);
      if text.None? then st.(live := false)
      else
        var chunks := TextChunks(text.value);
        var rows := NewRows(job.id, chunks, stored, hash);
        if rows.Keys !! st.db.passages.Keys && st.writes > 0 then
          Storing(st.db.(passages := st.db.passages + rows, sources := MarkNormalized(st.db.sources, job.id)),
                  st.total + |chunks|, st.writes - 1, true)
        else st.(live := false)
  }

  function StoreAll(st: Storing, jobs: seq<Job>, stored: set<string>, norm: Normalizer, hash: Digest): Storing {
    if jobs == [] then st
    else
      var n := |jobs| - 1;
      var before := StoreAll(st, jobs[..n], stored, norm, hash);
      if !before.live then before else StoreOne(before, jobs[n], stored, norm, hash)
  }

  /** The fetched sources in table order. */
  function FetchedJobs(sources: seq<Source>): seq<Job> {
    if sources == [] then []
    else
      var n := |sources| - 1;
      FetchedJobs(sources[..n])
      + (if sources[n].status == Fetched then [Job(n, sources[n].rawRef, sources[n].kind)] else [])
  }

  /** Digests of the passages already stored for these sources. */
  function StoredDigests(db: Db, jobs: seq<Job>): set<string> {
    set key, j | key in db.passages && 0 <= j < |jobs| && jobs[j].id == key.0 :: db.passages[key].digest
  }

  function StoreRun(db: Db, norm: Normalizer, hash: Digest, writes: nat): (Db, End<nat>) {
    var jobs := FetchedJobs(db.sources);
    var st := StoreAll(Storing(db, 0, writes, true), jobs, StoredDigests(db, jobs), norm, hash);
    (st.db, if st.live then Returned(st.total) else Stopped)
  }

  // ---------------------------------------------------------- what the tables keep

  function DecisionOf(status: SourceStatus): string {
    match status
    case Fetched => "fetched"
    case Normalized => "fetched"
    case Failed => "failed"
    case Quarantined => "quarantined"
  }

  predicate HasText(status: SourceStatus) {
    status == Fetched || status == Normalized
  }

  /**
   Each source has one audit row; `rawRef` is set exactly on fetched rows and leads to the bytes fetched
   for that row.
   */
  ghost predicate SourcesOk(db: Db) {
    && |db.audits| == |db.sources| == |db.replies|
    && (forall i | 0 <= i < |db.sources| ::
          db.audits[i].source == i && db.audits[i].decision == DecisionOf(db.sources[i].status))
    && (forall i | 0 <= i < |db.sources| :: db.sources[i].rawRef.Some? <==> HasText(db.sources[i].status))
    && (forall i | 0 <= i < |db.sources| && db.sources[i].rawRef.Some? ::
          BlobOf(db, db.sources[i].rawRef) == Some(db.replies[i]))
    && (forall r | r in db.blobs :: r < db.nextRef)
    && (forall i, j | 0 <= i < j < |db.sources| :: db.sources[i].digest != db.sources[j].digest)
  }

  ghost predicate OneRowPerUri(db: Db) {
    forall i, j | 0 <= i < j < |db.sources| :: db.sources[i].uri != db.sources[j].uri
  }

  /** The passages of source `i` are exactly the chunks of its normalized text, in order. */
  ghost predicate Assembled(db: Db, i: nat, norm: Normalizer, hash: Digest)
    requires i < |db.sources| == |db.replies|
  {
    var text := norm(db.sources[i].kind, db.replies[i]);
    && text.Some?
    && (forall k: nat :: (i, k) in db.passages <==> k < |TextChunks(text.value)|)
    && (forall k: nat | k < |TextChunks(text.value)| ::
          db.passages[(i, k)] == ToPassage(TextChunks(text.value)[k], hash))
  }

  /** Passages belong to normalized sources only, and those are fully assembled. */
  ghost predicate PassagesOk(db: Db, norm: Normalizer, hash: Digest) {
    && |db.sources| == |db.replies|
    && (forall key | key in db.passages :: key.0 < |db.sources| && db.sources[key.0].status == Normalized)
    && (forall i | 0 <= i < |db.sources| && db.sources[i].status == Normalized :: Assembled(db, i, norm, hash))
  }

  ghost predicate Injective(hash: Digest) {
    forall a, b | hash(a) == hash(b) :: a == b
  }

  /** The blobs shared within an attempt hold the bytes their digest was taken of. */
  ghost predicate SeenOk(st: Collecting, hash: Digest) {
    forall h | h in st.seen :: st.seen[h] in st.db.blobs && hash(st.db.blobs[st.seen[h]]) == h
  }
}
