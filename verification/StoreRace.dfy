/**
 Any number of store attempts on one run, interleaved at their reads and commits.  An attempt
 first reads the fetched sources and then, in the same session, the digests of their passages;
 `isolated` says whether the database shows both reads one state.
 */
module StoreRace {
  import opened Prelude
  import opened Ingest
  import opened IngestProofs
  import Chunker

  datatype Phase =
    | ReadSources
    | ReadDigests(jobs: seq<Job>)
    | Committing(jobs: seq<Job>, stored: set<string>, k: nat)
    | Gone

  datatype Move = Spawn | Act(who: nat) | Kill(who: nat)

  datatype World = World(db: Db, workers: seq<Phase>)

  /** One read or one commit of one attempt; a commit that fails ends it. */
  function Advance(db: Db, w: Phase, isolated: bool, norm: Normalizer, hash: Digest): (Db, Phase) {
    match w
    case ReadSources =>
      var jobs := FetchedJobs(db.sources);
      (db, if isolated then Committing(jobs, StoredDigests(db, jobs), 0) else ReadDigests(jobs))
    case ReadDigests(jobs) => (db, Committing(jobs, StoredDigests(db, jobs), 0))
    case Committing(jobs, stored, k) =>
      if k >= |jobs| then (db, Gone)
      else
        var st := StoreOne(Storing(db, 0, 1, true), jobs[k], stored, norm, hash);
        if st.live then (st.db, Committing(jobs, stored, k + 1)) else (db, Gone)
    case Gone => (db, Gone)
  }

  function Perform(world: World, move: Move, isolated: bool, norm: Normalizer, hash: Digest): World {
    match move
    case Spawn => world.(workers := world.workers + [ReadSources])
    case Kill(who) => if who < |world.workers| then world.(workers := world.workers[who := Gone]) else world
    case Act(who) =>
      if who >= |world.workers| then world
      else
        var (db, w) := Advance(world.db, world.workers[who], isolated, norm, hash);
        World(db, world.workers[who := w])
  }

  function PlayMoves(db: Db, moves: seq<Move>, isolated: bool, norm: Normalizer, hash: Digest): World {
    if moves == [] then World(db, [])
    else Perform(PlayMoves(db, moves[..|moves| - 1], isolated, norm, hash), moves[|moves| - 1], isolated, norm, hash)
  }

  // ------------------------------------------------------------- one state for both

  /** The source of a job, fetched or by now normalized by another attempt. */
  ghost predicate JobStill(db: Db, job: Job) {
    && job.id < |db.sources| && HasText(db.sources[job.id].status)
    && job.rawRef == db.sources[job.id].rawRef && job.kind == db.sources[job.id].kind
  }

  ghost predicate WorkerOk(db: Db, w: Phase) {
    match w
    case ReadSources => true
    case ReadDigests(_) => false
    case Committing(jobs, stored, _) => stored == {} && forall job | job in jobs :: JobStill(db, job)
    case Gone => true
  }

  ghost predicate Inv(world: World, norm: Normalizer, hash: Digest) {
    && SourcesOk(world.db) && PassagesOk(world.db, norm, hash)
    && forall k | 0 <= k < |world.workers| :: WorkerOk(world.db, world.workers[k])
  }

  /** The rows of a source that is stored already: they clash with what is there, unless there are none. */
  lemma RowsClash(db: Db, i: nat, stored: set<string>, norm: Normalizer, hash: Digest)
    requires i < |db.sources| == |db.replies| && Assembled(db, i, norm, hash)
    ensures var rows := NewRows(i, TextChunks(norm(db.sources[i].kind, db.replies[i]).value), stored, hash);
      rows.Keys !! db.passages.Keys ==> rows == map[]
  {
    var chunks := TextChunks(norm(db.sources[i].kind, db.replies[i]).value);
    NewRowsAre(i, chunks, stored, hash);
    var rows := NewRows(i, chunks, stored, hash);
    if key :| key in rows.Keys {
      assert key == (i, key.1) && key in db.passages.Keys;
    } else {
      assert rows.Keys == {};
    }
  }

  /** A source that another attempt has stored meanwhile: its commit changes nothing, whatever the snapshot. */
  lemma AgainChangesNothing(st: Storing, job: Job, stored: set<string>, norm: Normalizer, hash: Digest)
    requires job.id < |st.db.sources| == |st.db.replies| && Assembled(st.db, job.id, norm, hash)
    requires st.db.sources[job.id].status == Normalized && st.db.sources[job.id].kind == job.kind
    requires BlobOf(st.db, job.rawRef) == Some(st.db.replies[job.id])
    ensures StoreOne(st, job, stored, norm, hash).db == st.db
  {
    RowsClash(st.db, job.id, stored, norm, hash);
    assert st.db.passages + map[] == st.db.passages;
    assert MarkNormalized(st.db.sources, job.id) == st.db.sources;
  }

  /** Sources change at most from fetched to normalized. */
  ghost predicate OnlyMarked(a: Db, b: Db) {
    && |a.sources| == |b.sources|
    && forall i | 0 <= i < |a.sources| ::
         || b.sources[i] == a.sources[i]
         || (a.sources[i].status == Fetched && b.sources[i] == a.sources[i].(status := Normalized))
  }

  lemma MarkMarks(a: Db, b: Db, id: nat)
    requires id < |a.sources| && a.sources[id].status == Fetched
    requires b.sources == a.sources || b.sources == MarkNormalized(a.sources, id)
    ensures OnlyMarked(a, b)
  {
  }

  lemma CommitKeeps(db: Db, job: Job, norm: Normalizer, hash: Digest)
    requires SourcesOk(db) && PassagesOk(db, norm, hash) && JobStill(db, job)
    ensures var r := StoreOne(Storing(db, 0, 1, true), job, {}, norm, hash);
      SourcesOk(r.db) && PassagesOk(r.db, norm, hash) && OnlyMarked(db, r.db)
  {
    var st := Storing(db, 0, 1, true);
    if db.sources[job.id].status == Normalized {
      AgainChangesNothing(st, job, {}, norm, hash);
    } else {
      assert JobOf(db, job);
      StoreOneSources(st, job, norm, hash);
      StoreOneKeeps(st, job, norm, hash);
      MarkMarks(db, StoreOne(st, job, {}, norm, hash).db, job.id);
    }
  }

  /** Fetched sources have no passages, so one state shows no digest. */
  lemma NoDigests(db: Db, norm: Normalizer, hash: Digest)
    requires PassagesOk(db, norm, hash)
    ensures StoredDigests(db, FetchedJobs(db.sources)) == {}
    ensures forall job | job in FetchedJobs(db.sources) :: JobStill(db, job)
  {
    JobsFit(db.sources);
    var jobs := FetchedJobs(db.sources);
    forall j | 0 <= j < |jobs| ensures JobFits(db.sources, jobs[j]) {
      assert jobs[j] in jobs;
    }
  }

  lemma CommitKeepsWorker(db: Db, jobs: seq<Job>, k: nat, norm: Normalizer, hash: Digest)
    requires SourcesOk(db) && PassagesOk(db, norm, hash) && k < |jobs| && WorkerOk(db, Committing(jobs, {}, k))
    ensures var db' := StoreOne(Storing(db, 0, 1, true), jobs[k], {}, norm, hash).db;
      && SourcesOk(db') && PassagesOk(db', norm, hash) && OnlyMarked(db, db')
      && WorkerOk(db', Committing(jobs, {}, k + 1))
  {
    assert jobs[k] in jobs;
    CommitKeeps(db, jobs[k], norm, hash);
    var db' := StoreOne(Storing(db, 0, 1, true), jobs[k], {}, norm, hash).db;
    MarkedKeepsWorker(db, db', Committing(jobs, {}, k + 1));
  }

  lemma AdvanceKeeps(db: Db, w: Phase, norm: Normalizer, hash: Digest)
    requires SourcesOk(db) && PassagesOk(db, norm, hash) && WorkerOk(db, w)
    ensures var (db', w') := Advance(db, w, true, norm, hash);
      SourcesOk(db') && PassagesOk(db', norm, hash) && OnlyMarked(db, db') && WorkerOk(db', w')
  {
    match w
    case ReadSources =>
      NoDigests(db, norm, hash);
    case Committing(jobs, stored, k) =>
      if k < |jobs| {
        CommitKeepsWorker(db, jobs, k, norm, hash);
      }
    case Gone =>
  }

  lemma MarkedKeepsWorker(a: Db, b: Db, w: Phase)
    requires OnlyMarked(a, b) && WorkerOk(a, w)
    ensures WorkerOk(b, w)
  {
    if w.Committing? {
      forall job | job in w.jobs ensures JobStill(b, job) {
        assert JobStill(a, job);
      }
    }
  }

  /**
   If each attempt's reads see one state, every schedule of any number of attempts keeps the sources and
   passages in order.
   */
  lemma {:induction false} IsolatedSchedulesKeep(db: Db, moves: seq<Move>, norm: Normalizer, hash: Digest)
    requires SourcesOk(db) && PassagesOk(db, norm, hash)
    ensures Inv(PlayMoves(db, moves, true, norm, hash), norm, hash)
  {
    if moves != [] {
      var n := |moves| - 1;
      IsolatedSchedulesKeep(db, moves[..n], norm, hash);
      var world := PlayMoves(db, moves[..n], true, norm, hash);
      if moves[n].Act? && moves[n].who < |world.workers| {
        var who := moves[n].who;
        AdvanceKeeps(world.db, world.workers[who], norm, hash);
        var after := Perform(world, moves[n], true, norm, hash);
        forall k | 0 <= k < |after.workers| ensures WorkerOk(after.db, after.workers[k]) {
          if k != who {
            MarkedKeepsWorker(world.db, after.db, world.workers[k]);
          }
        }
      }
    }
  }

  // -------------------------------------------------------- a commit between the two

  lemma PlaySnoc(db: Db, moves: seq<Move>, move: Move, isolated: bool, norm: Normalizer, hash: Digest)
    ensures PlayMoves(db, moves + [move], isolated, norm, hash)
         == Perform(PlayMoves(db, moves, isolated, norm, hash), move, isolated, norm, hash)
  {
    assert (moves + [move])[..|moves|] == moves;
  }

  /** Two fetched sources, nothing stored yet, and both pages normalize to one text that is not empty. */
  ghost predicate SameTexts(db: Db, norm: Normalizer, text: string) {
    && |db.sources| == |db.replies| == 2 && db.passages == map[] && text != ""
    && forall i | 0 <= i < 2 ::
         && db.sources[i].status == Fetched && BlobOf(db, db.sources[i].rawRef) == Some(db.replies[i])
         && norm(db.sources[i].kind, db.replies[i]) == Some(text)
  }

  /** Both attempts read the sources; the first commits source 0 before the second reads its digests, and then dies. */
  function Reads(): seq<Move> {
    [] + [Spawn] + [Spawn] + [Act(1)] + [Act(0)] + [Act(0)]
  }

  function Race(): seq<Move> {
    Reads() + [Act(0)] + [Act(1)] + [Kill(0)] + [Act(1)] + [Act(1)]
  }

  function JobAt(db: Db, i: nat): Job
    requires i < |db.sources|
  {
    Job(i, db.sources[i].rawRef, db.sources[i].kind)
  }

  function TwoJobsOf(db: Db): seq<Job>
    requires |db.sources| == 2
  {
    [JobAt(db, 0), JobAt(db, 1)]
  }

  lemma TwoJobs(db: Db)
    requires |db.sources| == 2 && db.sources[0].status == db.sources[1].status == Fetched
    ensures FetchedJobs(db.sources) == TwoJobsOf(db)
  {
    assert db.sources[..1][..0] == [];
    assert FetchedJobs(db.sources[..1]) == [JobAt(db, 0)];
    assert db.sources[..|db.sources| - 1] == db.sources[..1];
  }

  /** The first attempt stores the chunks of source 0. */
  function FirstStored(db: Db, text: string, hash: Digest): Db
    requires |db.sources| == 2
  {
    db.(passages := NewRows(0, TextChunks(text), {}, hash), sources := MarkNormalized(db.sources, 0))
  }

  lemma FirstCommit(db: Db, norm: Normalizer, text: string, hash: Digest)
    requires SameTexts(db, norm, text)
    ensures var st := StoreOne(Storing(db, 0, 1, true), JobAt(db, 0), {}, norm, hash);
      st.live && st.db == FirstStored(db, text, hash)
  {
    var rows := NewRows(0, TextChunks(text), {}, hash);
    assert db.passages + rows == rows;
  }

  /** The digests of the chunks of a text. */
  function ChunkDigests(text: string, hash: Digest): set<string> {
    set k | 0 <= k < |TextChunks(text)| :: hash(TextChunks(text)[k].text)
  }

  /** With those digests in its snapshot an attempt skips every chunk, and yet marks the source. */
  lemma SkippingCommit(db: Db, i: nat, job: Job, norm: Normalizer, text: string, hash: Digest)
    requires i < |db.sources| && job.id == i && BlobOf(db, job.rawRef).Some?
    requires norm(job.kind, BlobOf(db, job.rawRef).value) == Some(text)
    ensures var st := StoreOne(Storing(db, 0, 1, true), job, ChunkDigests(text, hash), norm, hash);
      st.live && st.db == db.(sources := MarkNormalized(db.sources, i))
  {
    var rows := NewRows(i, TextChunks(text), ChunkDigests(text, hash), hash);
    assert rows == map[];
    assert db.passages + rows == db.passages;
  }

  lemma DigestsSeen(db: Db, text: string, hash: Digest)
    requires |db.sources| == 2
    ensures StoredDigests(FirstStored(db, text, hash), TwoJobsOf(db)) == ChunkDigests(text, hash)
  {
    var after, jobs, chunks := FirstStored(db, text, hash), TwoJobsOf(db), TextChunks(text);
    NewRowsAre(0, chunks, {}, hash);
    forall k: nat | k < |chunks| ensures hash(chunks[k].text) in StoredDigests(after, jobs) {
      assert (0, k) in after.passages && jobs[0].id == 0 && after.passages[(0, k)].digest == hash(chunks[k].text);
    }
  }

  /** Up to the second attempt's read of the sources, on any tables. */
  lemma BothRead(db: Db, norm: Normalizer, hash: Digest)
    requires StoredDigests(db, FetchedJobs(db.sources)) == {}
    ensures var jobs := FetchedJobs(db.sources);
      PlayMoves(db, Reads(), false, norm, hash) == World(db, [Committing(jobs, {}, 0), ReadDigests(jobs)])
  {
    var a := [] + [Spawn];
    var b := a + [Spawn];
    var c := b + [Act(1)];
    var d := c + [Act(0)];
    PlaySnoc(db, [], Spawn, false, norm, hash);
    PlaySnoc(db, a, Spawn, false, norm, hash);
    PlaySnoc(db, b, Act(1), false, norm, hash);
    PlaySnoc(db, c, Act(0), false, norm, hash);
    PlaySnoc(db, d, Act(0), false, norm, hash);
  }

  lemma RaceReads(db: Db, norm: Normalizer, hash: Digest)
    requires |db.sources| == 2 && db.sources[0].status == db.sources[1].status == Fetched && db.passages == map[]
    ensures var jobs := TwoJobsOf(db);
      PlayMoves(db, Reads(), false, norm, hash) == World(db, [Committing(jobs, {}, 0), ReadDigests(jobs)])
  {
    TwoJobs(db);
    assert StoredDigests(db, TwoJobsOf(db)) == {};
    BothRead(db, norm, hash);
  }

  /** The commit of the first attempt. */
  lemma FirstMove(db: Db, norm: Normalizer, text: string, hash: Digest)
    requires SameTexts(db, norm, text)
    ensures var jobs := TwoJobsOf(db);
      Perform(World(db, [Committing(jobs, {}, 0), ReadDigests(jobs)]), Act(0), false, norm, hash)
      == World(FirstStored(db, text, hash), [Committing(jobs, {}, 1), ReadDigests(jobs)])
  {
    FirstCommit(db, norm, text, hash);
  }

  /** A commit of the second attempt. */
  lemma SkipMove(db: Db, jobs: seq<Job>, k: nat, norm: Normalizer, text: string, hash: Digest)
    requires k < |jobs| && jobs[k].id < |db.sources| && BlobOf(db, jobs[k].rawRef).Some?
    requires norm(jobs[k].kind, BlobOf(db, jobs[k].rawRef).value) == Some(text)
    ensures var seen := ChunkDigests(text, hash);
      Perform(World(db, [Gone, Committing(jobs, seen, k)]), Act(1), false, norm, hash)
      == World(db.(sources := MarkNormalized(db.sources, jobs[k].id)), [Gone, Committing(jobs, seen, k + 1)])
  {
    SkippingCommit(db, jobs[k].id, jobs[k], norm, text, hash);
  }

  /** The second attempt's read of the digests, and the death of the first. */
  lemma ReadAndDie(db: Db, text: string, norm: Normalizer, hash: Digest)
    requires |db.sources| == 2
    ensures var jobs, first := TwoJobsOf(db), FirstStored(db, text, hash);
      Perform(Perform(World(first, [Committing(jobs, {}, 1), ReadDigests(jobs)]), Act(1), false, norm, hash), Kill(0),
              false, norm, hash)
      == World(first, [Gone, Committing(jobs, ChunkDigests(text, hash), 0)])
  {
    DigestsSeen(db, text, hash);
  }

  /** Up to the death of the first attempt. */
  lemma RaceDeath(db: Db, norm: Normalizer, text: string, hash: Digest)
    requires SameTexts(db, norm, text)
    ensures PlayMoves(db, Reads() + [Act(0)] + [Act(1)] + [Kill(0)], false, norm, hash)
         == World(FirstStored(db, text, hash), [Gone, Committing(TwoJobsOf(db), ChunkDigests(text, hash), 0)])
  {
    RaceReads(db, norm, hash);
    FirstMove(db, norm, text, hash);
    ReadAndDie(db, text, norm, hash);
    PlaySnoc(db, Reads(), Act(0), false, norm, hash);
    PlaySnoc(db, Reads() + [Act(0)], Act(1), false, norm, hash);
    PlaySnoc(db, Reads() + [Act(0)] + [Act(1)], Kill(0), false, norm, hash);
  }

  /** What the race leaves: both sources marked, the passages of one. */
  function RaceEnd(db: Db, text: string, hash: Digest): Db
    requires |db.sources| == 2
  {
    FirstStored(db, text, hash).(sources := MarkNormalized(MarkNormalized(db.sources, 0), 1))
  }

  /** The two commits of the second attempt. */
  lemma TwoSkips(db: Db, norm: Normalizer, text: string, hash: Digest)
    requires SameTexts(db, norm, text)
    ensures var world := World(FirstStored(db, text, hash),
                               [Gone, Committing(TwoJobsOf(db), ChunkDigests(text, hash), 0)]);
      Perform(Perform(world, Act(1), false, norm, hash), Act(1), false, norm, hash).db == RaceEnd(db, text, hash)
  {
    var first, jobs := FirstStored(db, text, hash), TwoJobsOf(db);
    assert MarkNormalized(first.sources, 0) == first.sources;
    SkipMove(first, jobs, 0, norm, text, hash);
    SkipMove(first, jobs, 1, norm, text, hash);
  }

  lemma RaceCommits(db: Db, norm: Normalizer, text: string, hash: Digest)
    requires SameTexts(db, norm, text)
    ensures PlayMoves(db, Race(), false, norm, hash).db == RaceEnd(db, text, hash)
  {
    var f := Reads() + [Act(0)] + [Act(1)] + [Kill(0)];
    RaceDeath(db, norm, text, hash);
    TwoSkips(db, norm, text, hash);
    PlaySnoc(db, f, Act(1), false, norm, hash);
    PlaySnoc(db, f + [Act(1)], Act(1), false, norm, hash);
  }

  lemma NothingFetched(db: Db, norm: Normalizer, hash: Digest, writes: nat)
    requires |db.sources| == 2 && db.sources[0].status == db.sources[1].status == Normalized
    ensures StoreRun(db, norm, hash, writes) == (db, Returned(0))
  {
    assert db.sources[..1][..0] == [] && db.sources[..|db.sources| - 1] == db.sources[..1];
    assert FetchedJobs(db.sources[..1]) == [];
    assert FetchedJobs(db.sources) == [];
  }

  /**
   Two sources with the same text: if the first is committed between the two reads of another
   attempt, that attempt marks the second source and never stores its passages; no later attempt does.
   */
  lemma RaceLosesPassages(db: Db, norm: Normalizer, text: string, hash: Digest, writes: nat)
    requires SameTexts(db, norm, text)
    ensures var after := PlayMoves(db, Race(), false, norm, hash).db;
      && |after.sources| == |after.replies| == 2 && after.sources[1].status == Normalized
      && !Assembled(after, 1, norm, hash)
      && StoreRun(after, norm, hash, writes) == (after, Returned(0))
  {
    var after := PlayMoves(db, Race(), false, norm, hash).db;
    RaceCommits(db, norm, text, hash);
    NewRowsAre(0, TextChunks(text), {}, hash);
    Chunker.ChunksTile(text, Chunker.CHUNK_MIN_CHARS, Chunker.CHUNK_MAX_CHARS);
    assert (1, 0) !in after.passages;
    NothingFetched(after, norm, hash, writes);
  }

  /** Two harmless pages with different bytes. */
  function TwoPages(a: string, b: string): nat -> Visit {
    n => Visit(true, Page(if n == 0 then a else b, "web", false))
  }

  lemma KeysDiffer(a: string, b: string, u: string, v: string, hash: Digest)
    requires Injective(hash) && ColonFree(hash) && a != b
    ensures hash(hash(a) + ":" + u) != hash(hash(b) + ":" + v)
  {
    if hash(a) + ":" + u == hash(b) + ":" + v {
      JoinedSame(hash(a), u, hash(b), v);
    }
  }

  /**
   Such a state comes from one collect attempt on an empty run, whenever two pages differ and normalize
   to one text.
   */
  lemma CollectGivesTwo(u: string, v: string, a: string, b: string, norm: Normalizer, text: string, hash: Digest)
    requires Injective(hash) && ColonFree(hash) && a != b && text != ""
    requires norm("web", a) == norm("web", b) == Some(text)
    ensures SameTexts(CollectRun(EMPTY, Some([u, v]), TwoPages(a, b), hash, 4).0, norm, text)
  {
    VisitTwo(u, v, a, b, hash);
    var visit, start := TwoPages(a, b), StartCollect(EMPTY, 4);
    LoopOfTwo(start, u, v, KnownUris(EMPTY), visit, hash);
    PagesGive(CollectOne(CollectOne(start, u, visit(0), hash), v, visit(1), hash).db, u, v, a, b, norm, text, hash);
  }

  function PageRow(uri: string, content: string, ref: nat, hash: Digest): Source {
    Source(uri, "web", hash(hash(content) + ":" + uri), Some(ref), true, Fetched)
  }

  lemma VisitTwo(u: string, v: string, a: string, b: string, hash: Digest)
    requires Injective(hash) && ColonFree(hash) && a != b
    ensures var start, visit := StartCollect(EMPTY, 4), TwoPages(a, b);
      var first := CollectOne(start, u, visit(0), hash);
      var db := CollectOne(first, v, visit(1), hash).db;
      && first.live && CollectOne(first, v, visit(1), hash).live
      && db.sources == [PageRow(u, a, 0, hash), PageRow(v, b, 1, hash)]
      && db.replies == [a, b] && db.blobs == map[0 := a, 1 := b] && db.passages == map[]
  {
    var start := StartCollect(EMPTY, 4);
    KeysDiffer(a, b, u, v, hash);
    FirstPage(start, u, a, hash);
    NextPage(CollectOne(start, u, TwoPages(a, b)(0), hash), v, b, hash);
  }

  lemma PagesGive(db: Db, u: string, v: string, a: string, b: string, norm: Normalizer, text: string, hash: Digest)
    requires db.sources == [PageRow(u, a, 0, hash), PageRow(v, b, 1, hash)]
    requires db.replies == [a, b] && db.blobs == map[0 := a, 1 := b] && db.passages == map[]
    requires text != "" && norm("web", a) == norm("web", b) == Some(text)
    ensures SameTexts(db, norm, text)
  {
  }

  lemma LoopOfTwo(st: Collecting, u: string, v: string, known: set<string>, visit: nat -> Visit, hash: Digest)
    requires st.live && known == {} && CollectOne(st, u, visit(0), hash).live
    ensures CollectAll(st, [u, v], known, visit, hash)
         == CollectOne(CollectOne(st, u, visit(0), hash), v, visit(1), hash)
  {
    assert [u, v][..1] == [u] && [u][..0] == [];
    assert CollectAll(st, [u], known, visit, hash)
        == CollectOne(CollectAll(st, [], known, visit, hash), u, visit(0), hash);
  }

  lemma FirstPage(st: Collecting, u: string, a: string, hash: Digest)
    requires st == StartCollect(EMPTY, 4)
    ensures var r := CollectOne(st, u, Visit(true, Page(a, "web", false)), hash);
      && r.live && r.writes == 2 && r.seen == map[hash(a) := 0]
      && r.db.sources == [Source(u, "web", hash(hash(a) + ":" + u), Some(0), true, Fetched)]
      && r.db.replies == [a] && r.db.blobs == map[0 := a] && r.db.nextRef == 1 && r.db.passages == map[]
  {
  }

  lemma NextPage(st: Collecting, v: string, b: string, hash: Digest)
    requires st.live && st.writes == 2 && hash(b) !in st.seen && st.db.nextRef == 1 && st.db.blobs.Keys == {0}
    requires !DigestTaken(st.db, hash(hash(b) + ":" + v))
    ensures var r := CollectOne(st, v, Visit(true, Page(b, "web", false)), hash);
      && r.live && r.db.sources == st.db.sources + [Source(v, "web", hash(hash(b) + ":" + v), Some(1), true, Fetched)]
      && r.db.replies == st.db.replies + [b] && r.db.blobs == st.db.blobs[1 := b] && r.db.passages == st.db.passages
  {
  }
}
