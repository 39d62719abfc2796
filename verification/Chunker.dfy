/**
 The text chunker of `app/services/normalizer.py`.

 A text is cut at blank lines into paragraph spans; spans are packed greedily into
 chunks, and a paragraph that is too long on its own is split at spaces.  Each loop of
 the source is a method proved equal to a recursive function; what the source promises
 is then proved about the functions.
 */
module Chunker {
  import opened Prelude

  const CHUNK_MIN_CHARS := 500
  const CHUNK_MAX_CHARS := 1200

  datatype Span = Span(start: nat, end: nat)
  datatype Chunk = Chunk(text: string, start: nat, end: nat)

  // ---------------------------------------------------------------- scanning

  /** A blank-line separator starts at `i`. */
  predicate IsBreak(text: string, i: nat) {
    i + 2 <= |text| && text[i] == '\n' && text[i + 1] == '\n'
  }

  /** Leftmost separator at or after `from`: one step of the source's regular-expression scan. */
  function FindBreak(text: string, from: nat): (k: Option<nat>)
    requires from <= |text|
    ensures k.Some? ==> from <= k.value && IsBreak(text, k.value)
    ensures k.Some? ==> forall j: nat | from <= j < k.value :: !IsBreak(text, j)
    ensures k.None? ==> forall j: nat | from <= j :: !IsBreak(text, j)
    decreases |text| - from
  {
    if from == |text| then None
    else if IsBreak(text, from) then Some(from)
    else FindBreak(text, from + 1)
  }

  /** Rightmost space in `text[lo..hi]`, as Python's `rfind` reports it. */
  function RFindSpace(text: string, lo: nat, hi: nat): (k: Option<nat>)
    requires lo <= hi <= |text|
    ensures k.Some? ==> lo <= k.value < hi && text[k.value] == ' '
    ensures k.Some? ==> forall j | k.value < j < hi :: text[j] != ' '
    ensures k.None? ==> forall j | lo <= j < hi :: text[j] != ' '
  {
    if lo == hi then None
    else if text[hi - 1] == ' ' then Some(hi - 1)
    else RFindSpace(text, lo, hi - 1)
  }

  // ------------------------------------------------------- what the loops compute

  function SpansFrom(text: string, cursor: nat): seq<Span>
    requires cursor <= |text|
    decreases |text| - cursor
  {
    match FindBreak(text, cursor)
    case Some(k) => [Span(cursor, k + 2)] + SpansFrom(text, k + 2)
    case None => if cursor < |text| then [Span(cursor, |text|)] else []
  }

  function SpansLength(spans: seq<Span>): int {
    if spans == [] then 0
    else SpansLength(spans[..|spans| - 1]) + (spans[|spans| - 1].end - spans[|spans| - 1].start)
  }

  function Piece(text: string, start: nat, end: nat): Chunk
    requires start <= end <= |text|
  {
    Chunk(text[start..end], start, end)
  }

  function Flush(spans: seq<Span>, text: string): Chunk
    requires spans != [] && spans[0].start <= spans[|spans| - 1].end <= |text|
  {
    Piece(text, spans[0].start, spans[|spans| - 1].end)
  }

  /** Where an oversized stretch starting at `cursor` is cut next. */
  function CutPoint(text: string, cursor: nat, max: nat): nat
    requires 1 <= max && cursor + max < |text|
  {
    var cut := RFindSpace(text, cursor + 1, cursor + max + 1);
    if cut.Some? then cut.value else cursor + max
  }

  function HardSplit(text: string, start: nat, end: nat, max: nat): seq<Chunk>
    requires 1 <= max && start <= end <= |text|
    decreases end - start
  {
    if end - start > max then
      var cut := CutPoint(text, start, max);
      [Piece(text, start, cut)] + HardSplit(text, cut, end, max)
    else [Piece(text, start, end)]
  }

  /** `spans` is a run of adjoining non-empty spans from `lo` to `hi`. */
  predicate Tiles(spans: seq<Span>, lo: nat, hi: nat) {
    if spans == [] then lo == hi
    else
      var s := spans[|spans| - 1];
      s.end == hi && s.start < s.end && Tiles(spans[..|spans| - 1], lo, s.start)
  }

  /** `chunks` are adjoining non-empty exact substrings of `text` from `lo` to `hi`, each at most `max` long. */
  predicate Covers(text: string, chunks: seq<Chunk>, lo: nat, hi: nat, max: nat) {
    if chunks == [] then lo == hi
    else
      var c := chunks[|chunks| - 1];
      && c.end == hi <= |text| && c.start < c.end && c.end - c.start <= max
      && c.text == text[c.start..c.end]
      && Covers(text, chunks[..|chunks| - 1], lo, c.start, max)
  }

  lemma {:induction false} CoversConcat(text: string, a: seq<Chunk>, b: seq<Chunk>, lo: nat, mid: nat, hi: nat,
                                        max: nat)
    requires Covers(text, a, lo, mid, max) && Covers(text, b, mid, hi, max)
    ensures Covers(text, a + b, lo, hi, max)
  {
    if b == [] {
      assert a + b == a;
    } else {
      var n := |b| - 1;
      CoversConcat(text, a, b[..n], lo, mid, b[n].start, max);
      assert (a + b)[..|a + b| - 1] == a + b[..n];
    }
  }

  lemma {:induction false} TilesCons(s: Span, spans: seq<Span>, hi: nat)
    requires s.start < s.end && Tiles(spans, s.end, hi)
    ensures Tiles([s] + spans, s.start, hi)
  {
    if spans == [] {
      assert ([s] + spans)[..0] == [];
    } else {
      var n := |spans| - 1;
      TilesCons(s, spans[..n], spans[n].start);
      assert ([s] + spans)[..|spans|] == [s] + spans[..n];
    }
  }

  /** The two lists of the packing loop: chunks already out, spans still waiting. */
  datatype Packer = Packer(done: seq<Chunk>, current: seq<Span>)

  function EndOf(chunks: seq<Chunk>): nat {
    if chunks == [] then 0 else chunks[|chunks| - 1].end
  }

  /** What holds of the two lists once every span that ends by `mid` has been taken. */
  predicate PackerAt(text: string, p: Packer, mid: nat, max: nat) {
    && mid <= |text|
    && Covers(text, p.done, 0, EndOf(p.done), max)
    && Tiles(p.current, EndOf(p.done), mid)
    && EndOf(p.done) <= mid && SpansLength(p.current) == mid - EndOf(p.done) <= max
  }

  function FlushAll(text: string, p: Packer, mid: nat, max: nat): (r: Packer)
    requires PackerAt(text, p, mid, max)
    ensures PackerAt(text, r, mid, max) && r.current == [] && EndOf(r.done) == mid
  {
    TilesOrder(p.current, EndOf(p.done), mid);
    if p.current == [] then p
    else
      var c := Flush(p.current, text);
      assert (p.done + [c])[..|p.done|] == p.done;
      Packer(p.done + [c], [])
  }

  /** One round of the packing loop on span `s`. */
  function Step(text: string, p: Packer, s: Span, min: int, max: nat): (r: Packer)
    requires 1 <= max && PackerAt(text, p, s.start, max) && s.start < s.end <= |text|
    ensures PackerAt(text, r, s.end, max)
  {
    var length := s.end - s.start;
    if length > max then
      var pieces := HardSplit(text, s.start, s.end, max);
      var flushed := FlushAll(text, p, s.start, max).done;
      HardSplitCovers(text, s.start, s.end, max);
      CoversConcat(text, flushed, pieces, 0, s.start, s.end, max);
      CoversEnds(text, flushed + pieces, 0, s.end, max);
      Packer(flushed + pieces, [])
    else
      var q := if p.current != [] && SpansLength(p.current) + length > max then FlushAll(text, p, s.start, max) else p;
      assert (q.current + [s])[..|q.current|] == q.current;
      var grown := Packer(q.done, q.current + [s]);
      if SpansLength(grown.current) >= min then FlushAll(text, grown, s.end, max) else grown
  }

  /** The two lists after all of `spans`, which reach from 0 to `mid`. */
  function PackAll(text: string, spans: seq<Span>, mid: nat, min: int, max: nat): (p: Packer)
    requires 1 <= max && Tiles(spans, 0, mid) && mid <= |text|
    ensures PackerAt(text, p, mid, max)
  {
    if spans == [] then Packer([], [])
    else
      var n := |spans| - 1;
      Step(text, PackAll(text, spans[..n], spans[n].start, min, max), spans[n], min, max)
  }

  function Chunks(text: string, min: int, max: nat): seq<Chunk>
    requires 1 <= max
  {
    SpansTile(text, 0);
    var spans := SpansFrom(text, 0);
    FlushAll(text, PackAll(text, spans, |text|, min, max), |text|, max).done
  }

  /** Adjoining spans start at `lo`, stay within it and `hi`, and each starts where the one before ends. */
  lemma {:induction false} TilesOrder(spans: seq<Span>, lo: nat, hi: nat)
    requires Tiles(spans, lo, hi)
    ensures lo <= hi && forall s | s in spans :: lo <= s.start < s.end <= hi
    ensures spans != [] ==> spans[0].start == lo && spans[|spans| - 1].end == hi
  {
    if spans != [] {
      var n := |spans| - 1;
      TilesOrder(spans[..n], lo, spans[n].start);
    }
  }

  lemma {:induction false} TilesPrefix(spans: seq<Span>, lo: nat, hi: nat, i: nat)
    requires Tiles(spans, lo, hi) && i < |spans|
    ensures Tiles(spans[..i], lo, spans[i].start) && Tiles(spans[..i + 1], lo, spans[i].end)
  {
    var n := |spans| - 1;
    assert spans[..n + 1] == spans;
    if i < n {
      TilesPrefix(spans[..n], lo, spans[n].start, i);
      assert spans[..n][..i] == spans[..i] && spans[..n][..i + 1] == spans[..i + 1];
    }
  }

  lemma {:induction false} TilesUnique(spans: seq<Span>, lo: nat, a: nat, b: nat)
    requires Tiles(spans, lo, a) && Tiles(spans, lo, b)
    ensures a == b
  {
  }

  lemma CoversEnds(text: string, chunks: seq<Chunk>, lo: nat, hi: nat, max: nat)
    requires Covers(text, chunks, lo, hi, max)
    ensures chunks != [] ==> chunks[|chunks| - 1].end == hi
    ensures chunks == [] ==> lo == hi
  {
  }

  lemma {:induction false} SpansTile(text: string, cursor: nat)
    requires cursor <= |text|
    ensures Tiles(SpansFrom(text, cursor), cursor, |text|)
    decreases |text| - cursor
  {
    match FindBreak(text, cursor)
    case Some(k) =>
      SpansTile(text, k + 2);
      TilesCons(Span(cursor, k + 2), SpansFrom(text, k + 2), |text|);
    case None =>
  }

  lemma {:induction false} HardSplitCovers(text: string, start: nat, end: nat, max: nat)
    requires 1 <= max && start < end <= |text|
    ensures Covers(text, HardSplit(text, start, end, max), start, end, max)
    decreases end - start
  {
    if end - start > max {
      var cut := CutPoint(text, start, max);
      HardSplitCovers(text, cut, end, max);
      CoversConcat(text, [Piece(text, start, cut)], HardSplit(text, cut, end, max), start, cut, end, max);
    }
  }

  // --------------------------------------------------------- chunks tile the text

  function Join(chunks: seq<Chunk>): string {
    if chunks == [] then "" else Join(chunks[..|chunks| - 1]) + chunks[|chunks| - 1].text
  }

  /** Covering chunks read back in order give the covered text. */
  lemma {:induction false} CoversJoin(text: string, chunks: seq<Chunk>, lo: nat, hi: nat, max: nat)
    requires Covers(text, chunks, lo, hi, max) && lo <= |text|
    ensures lo <= hi <= |text| && Join(chunks) == text[lo..hi]
  {
    if chunks != [] {
      var n := |chunks| - 1;
      CoversJoin(text, chunks[..n], lo, chunks[n].start, max);
    }
  }

  lemma {:induction false} CoversEach(text: string, chunks: seq<Chunk>, lo: nat, hi: nat, max: nat)
    requires Covers(text, chunks, lo, hi, max)
    ensures forall c | c in chunks ::
              c.start < c.end <= |text| && c.end - c.start <= max && c.text == text[c.start..c.end]
  {
    if chunks != [] {
      var n := |chunks| - 1;
      CoversEach(text, chunks[..n], lo, chunks[n].start, max);
    }
  }

  /** The chunks are exact, non-empty, adjoining, bounded substrings, and reading them back gives the text. */
  lemma ChunksTile(text: string, min: int, max: nat)
    requires 1 <= max
    ensures Covers(text, Chunks(text, min, max), 0, |text|, max)
    ensures Join(Chunks(text, min, max)) == text
    ensures Chunks(text, min, max) == [] <==> text == ""
  {
    SpansTile(text, 0);
    CoversJoin(text, Chunks(text, min, max), 0, |text|, max);
  }

  // ------------------------------------------------------ where paragraphs are cut

  predicate Oversized(s: Span, max: nat) {
    s.end - s.start > max
  }

  /** `c` ends at the last space of its window, or it fills the window and the window holds no space. */
  predicate WordCut(text: string, c: Chunk, max: nat) {
    && c.end < |text|
    && (forall k | c.end < k <= c.start + max && k < |text| :: text[k] != ' ')
    && (text[c.end] == ' '
        || (c.end - c.start == max && forall k | c.start < k <= c.end :: text[k] != ' '))
  }

  predicate InsideOversized(spans: seq<Span>, c: Chunk, max: nat) {
    exists s | s in spans :: Oversized(s, max) && s.start <= c.start && c.end <= s.end
  }

  /**
   `c` ends with a paragraph without which it would be shorter than `min`, or it is cut out of an
   oversized paragraph, at a word boundary if there is one.
   */
  predicate CleanCut(text: string, spans: seq<Span>, c: Chunk, min: int, max: nat) {
    || (exists s | s in spans :: s.end == c.end && (s.start <= c.start || s.start - c.start < min))
    || (InsideOversized(spans, c, max) && WordCut(text, c, max))
  }

  /** Why a chunk that is not the last may be short: packing it further would pass `max`. */
  predicate Justified(spans: seq<Span>, c: Chunk, min: int, max: nat) {
    || c.end - c.start >= min
    || (exists s | s in spans :: s.start == c.end && (c.end - c.start) + (s.end - s.start) > max)
    || InsideOversized(spans, c, max)
  }

  ghost predicate WellCut(text: string, all: seq<Span>, chunks: seq<Chunk>, min: int, max: nat) {
    forall c | c in chunks :: CleanCut(text, all, c, min, max) && Justified(all, c, min, max)
  }

  /** Spans end at a separator or at the end of the text, and hold no earlier separator. */
  lemma {:induction false} SpansAreParagraphs(text: string, cursor: nat, s: Span)
    requires cursor <= |text| && s in SpansFrom(text, cursor)
    ensures s.end <= |text|
    ensures s.end == |text| || (s.end >= 2 && IsBreak(text, s.end - 2))
    ensures forall k: nat | s.start <= k && k + 2 < s.end :: !IsBreak(text, k)
    decreases |text| - cursor
  {
    match FindBreak(text, cursor)
    case Some(k) =>
      if s != Span(cursor, k + 2) {
        SpansAreParagraphs(text, k + 2, s);
      }
    case None =>
  }

  lemma {:induction false} HardSplitCuts(text: string, start: nat, end: nat, max: nat, c: Chunk)
    requires 1 <= max && start < end <= |text| && c in HardSplit(text, start, end, max)
    ensures start <= c.start && c.end <= end && (c.end == end || WordCut(text, c, max))
    decreases end - start
  {
    if end - start > max {
      var cut := CutPoint(text, start, max);
      if c != Piece(text, start, cut) {
        HardSplitCuts(text, cut, end, max, c);
      }
    }
  }

  /** The waiting spans come from the text and do not reach `min` yet. */
  ghost predicate Waiting(all: seq<Span>, p: Packer, min: int) {
    && (forall t | t in p.current :: t in all)
    && (p.current == [] || SpansLength(p.current) < min)
  }

  lemma {:induction false} LengthOfTiles(spans: seq<Span>, lo: nat, hi: nat)
    requires Tiles(spans, lo, hi)
    ensures SpansLength(spans) == hi - lo
  {
    if spans != [] {
      var n := |spans| - 1;
      LengthOfTiles(spans[..n], lo, spans[n].start);
    }
  }

  /** A flushed chunk runs from what is out to `mid` and ends with a paragraph. */
  lemma FlushedChunk(text: string, all: seq<Span>, p: Packer, mid: nat, min: int, max: nat)
    requires PackerAt(text, p, mid, max) && p.current != [] && forall t | t in p.current :: t in all
    requires |p.current| == 1 || SpansLength(p.current[..|p.current| - 1]) < min
    ensures var q := FlushAll(text, p, mid, max);
      && q.done == p.done + [Piece(text, EndOf(p.done), mid)]
      && CleanCut(text, all, Piece(text, EndOf(p.done), mid), min, max)
  {
    TilesOrder(p.current, EndOf(p.done), mid);
    LengthOfTiles(p.current[..|p.current| - 1], EndOf(p.done), p.current[|p.current| - 1].start);
    var t := p.current[|p.current| - 1];
    assert t in all && t.end == mid;
  }

  lemma HardSplitWellCut(text: string, all: seq<Span>, s: Span, min: int, max: nat)
    requires 1 <= max && s in all && s.start < s.end <= |text| && Oversized(s, max)
    ensures WellCut(text, all, HardSplit(text, s.start, s.end, max), min, max)
  {
    forall c | c in HardSplit(text, s.start, s.end, max)
      ensures CleanCut(text, all, c, min, max) && Justified(all, c, min, max)
    {
      HardSplitCuts(text, s.start, s.end, max, c);
    }
  }

  /** Flushing because the next span `s` does not fit keeps every chunk well cut. */
  lemma FlushBefore(text: string, all: seq<Span>, p: Packer, s: Span, min: int, max: nat)
    requires PackerAt(text, p, s.start, max) && s.start < s.end && s in all
    requires WellCut(text, all, p.done, min, max) && Waiting(all, p, min)
    requires SpansLength(p.current) + (s.end - s.start) > max
    ensures WellCut(text, all, FlushAll(text, p, s.start, max).done, min, max)
  {
    if p.current != [] {
      FlushedChunk(text, all, p, s.start, min, max);
      assert Justified(all, Piece(text, EndOf(p.done), s.start), min, max);
    }
  }

  /** A span too long for a chunk is cut on its own, after the waiting spans. */
  lemma LongSpanWellCut(text: string, all: seq<Span>, p: Packer, s: Span, min: int, max: nat)
    requires 1 <= max && PackerAt(text, p, s.start, max) && s.start < s.end <= |text| && s in all
          && s.end - s.start > max
    requires WellCut(text, all, p.done, min, max) && Waiting(all, p, min)
    ensures WellCut(text, all, Step(text, p, s, min, max).done, min, max)
  {
    TilesOrder(p.current, EndOf(p.done), s.start);
    FlushBefore(text, all, p, s, min, max);
    HardSplitWellCut(text, all, s, min, max);
  }

  /** A span that fits joins the waiting ones, and they leave once they reach the minimum. */
  lemma JoinWellCut(text: string, all: seq<Span>, q: Packer, s: Span, min: int, max: nat)
    requires 1 <= max && s in all && PackerAt(text, Packer(q.done, q.current + [s]), s.end, max)
    requires WellCut(text, all, q.done, min, max) && Waiting(all, q, min)
    ensures var grown := Packer(q.done, q.current + [s]);
      var r := if SpansLength(grown.current) >= min then FlushAll(text, grown, s.end, max) else grown;
      WellCut(text, all, r.done, min, max) && Waiting(all, r, min)
  {
    assert (q.current + [s])[..|q.current|] == q.current;
    var grown := Packer(q.done, q.current + [s]);
    if SpansLength(grown.current) >= min {
      FlushedChunk(text, all, grown, s.end, min, max);
    }
  }

  lemma StepWellCut(text: string, all: seq<Span>, p: Packer, s: Span, min: int, max: nat)
    requires 1 <= max && PackerAt(text, p, s.start, max) && s.start < s.end <= |text| && s in all
    requires WellCut(text, all, p.done, min, max) && Waiting(all, p, min)
    ensures var r := Step(text, p, s, min, max);
      WellCut(text, all, r.done, min, max) && Waiting(all, r, min)
  {
    var length := s.end - s.start;
    if length > max {
      LongSpanWellCut(text, all, p, s, min, max);
    } else {
      var full := p.current != [] && SpansLength(p.current) + length > max;
      if full {
        FlushBefore(text, all, p, s, min, max);
      }
      var q := if full then FlushAll(text, p, s.start, max) else p;
      assert (q.current + [s])[..|q.current|] == q.current;
      JoinWellCut(text, all, q, s, min, max);
    }
  }

  lemma {:induction false} PackAllWellCut(text: string, all: seq<Span>, spans: seq<Span>, mid: nat, min: int, max: nat)
    requires 1 <= max && Tiles(spans, 0, mid) && mid <= |text| && forall t | t in spans :: t in all
    ensures var p := PackAll(text, spans, mid, min, max);
      WellCut(text, all, p.done, min, max) && Waiting(all, p, min)
  {
    if spans != [] {
      var n := |spans| - 1;
      PackAllWellCut(text, all, spans[..n], spans[n].start, min, max);
      StepWellCut(text, all, PackAll(text, spans[..n], spans[n].start, min, max), spans[n], min, max);
    }
  }

  /** All chunks are well cut, except that the last one may be short without a reason. */
  ghost predicate WellCutButLast(text: string, all: seq<Span>, chunks: seq<Chunk>, min: int, max: nat) {
    && (forall c | c in chunks :: CleanCut(text, all, c, min, max))
    && (forall i | 0 <= i < |chunks| - 1 :: Justified(all, chunks[i], min, max))
  }

  lemma FinishWellCut(text: string, all: seq<Span>, p: Packer, mid: nat, min: int, max: nat)
    requires PackerAt(text, p, mid, max)
    requires WellCut(text, all, p.done, min, max) && Waiting(all, p, min)
    ensures WellCutButLast(text, all, FlushAll(text, p, mid, max).done, min, max)
  {
    if p.current != [] {
      FlushedChunk(text, all, p, mid, min, max);
    }
    var done := FlushAll(text, p, mid, max).done;
    forall i | 0 <= i < |done| - 1 ensures Justified(all, done[i], min, max) {
      assert done[i] == p.done[i] && p.done[i] in p.done;
    }
  }

  /**
   Every chunk ends with a paragraph or at a word boundary of an oversized one; every short chunk but the
   last has a reason.
   */
  lemma ChunksWellCut(text: string, min: int, max: nat)
    requires 1 <= max
    ensures WellCutButLast(text, SpansFrom(text, 0), Chunks(text, min, max), min, max)
  {
    SpansTile(text, 0);
    var spans := SpansFrom(text, 0);
    PackAllWellCut(text, spans, spans, |text|, min, max);
    FinishWellCut(text, spans, PackAll(text, spans, |text|, min, max), |text|, min, max);
  }

  /** With no paragraph longer than `max - min + 1`, every chunk but the last reaches `min`. */
  lemma ChunksReachMinimum(text: string, min: int, max: nat)
    requires 1 <= min <= max
    requires forall s | s in SpansFrom(text, 0) :: s.end - s.start <= max - min + 1
    ensures var chunks := Chunks(text, min, max);
      forall i | 0 <= i < |chunks| - 1 :: |chunks[i].text| >= min
  {
    ChunksWellCut(text, min, max);
    ChunksTile(text, min, max);
    var chunks := Chunks(text, min, max);
    CoversEach(text, chunks, 0, |text|, max);
    forall i | 0 <= i < |chunks| - 1 ensures |chunks[i].text| >= min {
      assert Justified(SpansFrom(text, 0), chunks[i], min, max);
    }
  }

  lemma SpansLengthOne(s: Span)
    ensures SpansLength([s]) == s.end - s.start
  {
    assert [s][..0] == [];
  }

  /** Two paragraphs that do not fit together come out as two chunks, however short the first is. */
  lemma TwoParagraphs(text: string, cut: nat, min: int, max: nat)
    requires SpansFrom(text, 0) == [Span(0, cut), Span(cut, |text|)]
    requires 0 < cut < min <= |text| - cut <= max < |text|
    ensures Chunks(text, min, max) == [Piece(text, 0, cut), Piece(text, cut, |text|)]
  {
    SpansTile(text, 0);
    var a, b := Span(0, cut), Span(cut, |text|);
    var spans := SpansFrom(text, 0);
    SpansLengthOne(a);
    SpansLengthOne(b);
    assert spans[..1] == [a] && [a][..0] == [] && [] + [a] == [a] && [] + [b] == [b];
    assert PackAll(text, [a], cut, min, max) == Packer([], [a]);
    var last := Step(text, Packer([], [a]), b, min, max);
    assert last == PackAll(text, spans, |text|, min, max);
    assert last.current == [] && last.done == [Piece(text, 0, cut)] + [Piece(text, cut, |text|)];
  }

  /** The documented lower bound fails in general: one character over the limit of `ChunksReachMinimum` is enough. */
  lemma ChunksMayStayShort()
    ensures var chunks := Chunks("a\n\nbbbb", 4, 6);
      |chunks| == 2 && |chunks[0].text| == 3
  {
    var text := "a\n\nbbbb";
    assert SpansFrom(text, 0) == [Span(0, 3), Span(3, 7)] by {
      assert IsBreak(text, 1);
      assert SpansFrom(text, 3) == [Span(3, 7)];
    }
    TwoParagraphs(text, 3, 4, 6);
  }

  // ---------------------------------------------------------------- the loops

  /** `_paragraph_spans`: the scan over separators. */
  method ParagraphSpans(text: string) returns (spans: seq<Span>)
    ensures spans == SpansFrom(text, 0)
  {
    spans := [];
    var cursor := 0;
    var found := FindBreak(text, 0);
    while found.Some?
      invariant cursor <= |text| && found == FindBreak(text, cursor)
      invariant spans + SpansFrom(text, cursor) == SpansFrom(text, 0)
      decreases |text| - cursor
    {
      spans := spans + [Span(cursor, found.value + 2)];
      cursor := found.value + 2;
      found := FindBreak(text, cursor);
    }
    if cursor < |text| {
      spans := spans + [Span(cursor, |text|)];
    }
  }

  lemma SplitStep(text: string, done: seq<Chunk>, cursor: nat, end: nat, max: nat)
    requires 1 <= max && cursor <= end <= |text| && end - cursor > max
    ensures var cut := CutPoint(text, cursor, max);
      done + HardSplit(text, cursor, end, max) == done + [Piece(text, cursor, cut)] + HardSplit(text, cut, end, max)
  {
  }

  /** `_hard_split`: terminates because every cut lies after the cursor. */
  method HardSplitLoop(text: string, start: nat, end: nat, max: nat) returns (pieces: seq<Chunk>)
    requires 1 <= max && start <= end <= |text|
    ensures pieces == HardSplit(text, start, end, max)
  {
    pieces := [];
    var cursor := start;
    while end - cursor > max
      invariant start <= cursor <= end
      invariant pieces + HardSplit(text, cursor, end, max) == HardSplit(text, start, end, max)
      decreases end - cursor
    {
      var candidate := cursor + max;
      var cut := RFindSpace(text, cursor + 1, candidate + 1);
      var boundary := if cut.Some? then cut.value else candidate;
      assert boundary == CutPoint(text, cursor, max);
      SplitStep(text, pieces, cursor, end, max);
      pieces := pieces + [Piece(text, cursor, boundary)];
      cursor := boundary;
    }
    pieces := pieces + [Piece(text, cursor, end)];
  }

  lemma PackAllSnoc(text: string, spans: seq<Span>, i: nat, min: int, max: nat)
    requires 1 <= max && Tiles(spans, 0, |text|) && i < |spans|
    ensures spans[i].start < spans[i].end <= |text|
    ensures Tiles(spans[..i], 0, spans[i].start) && Tiles(spans[..i + 1], 0, spans[i].end)
    ensures PackAll(text, spans[..i + 1], spans[i].end, min, max)
         == Step(text, PackAll(text, spans[..i], spans[i].start, min, max), spans[i], min, max)
  {
    TilesOrder(spans, 0, |text|);
    assert spans[i] in spans;
    TilesPrefix(spans, 0, |text|, i);
    assert spans[..i + 1][..i] == spans[..i];
  }

  /** `chunk_passages`: greedy packing in one pass over the spans. */
  method ChunkPassages(text: string, min: int, max: nat) returns (chunks: seq<Chunk>)
    requires 1 <= max
    ensures chunks == Chunks(text, min, max)
  {
    SpansTile(text, 0);
    chunks := [];
    var current: seq<Span> := [];
    var spans := ParagraphSpans(text);
    ghost var mid: nat := 0;
    for i := 0 to |spans|
      invariant Tiles(spans[..i], 0, mid) && mid <= |text|
      invariant Packer(chunks, current) == PackAll(text, spans[..i], mid, min, max)
    {
      PackAllSnoc(text, spans, i, min, max);
      TilesUnique(spans[..i], 0, mid, spans[i].start);
      chunks, current := PackOne(text, chunks, current, spans[i], min, max);
      mid := spans[i].end;
    }
    assert spans[..|spans|] == spans;
    TilesUnique(spans, 0, mid, |text|);
    TilesOrder(current, EndOf(chunks), |text|);
    if current != [] {
      chunks := chunks + [Flush(current, text)];
    }
  }

  /** The body of that loop. */
  method PackOne(text: string, chunks: seq<Chunk>, current: seq<Span>, s: Span, min: int, max: nat)
      returns (chunks': seq<Chunk>, current': seq<Span>)
    requires 1 <= max && PackerAt(text, Packer(chunks, current), s.start, max) && s.start < s.end <= |text|
    ensures Packer(chunks', current') == Step(text, Packer(chunks, current), s, min, max)
  {
    chunks', current' := chunks, current;
    TilesOrder(current, EndOf(chunks), s.start);
    var length := s.end - s.start;
    if length > max {
      if current' != [] {
        chunks' := chunks' + [Flush(current', text)];
        current' := [];
      }
      var pieces := HardSplitLoop(text, s.start, s.end, max);
      chunks' := chunks' + pieces;
      return;
    }
    if current' != [] && SpansLength(current') + length > max {
      chunks' := chunks' + [Flush(current', text)];
      current' := [];
    }
    assert PackerAt(text, Packer(chunks', current'), s.start, max);
    assert (current' + [s])[..|current'|] == current';
    current' := current' + [s];
    assert PackerAt(text, Packer(chunks', current'), s.end, max);
    TilesOrder(current', EndOf(chunks'), s.end);
    if SpansLength(current') >= min {
      chunks' := chunks' + [Flush(current', text)];
      current' := [];
    }
  }
}
