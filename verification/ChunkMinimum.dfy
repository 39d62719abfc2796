/** Exactly when every chunk but the last reaches the documented minimum. */
module ChunkMinimum {
  import opened Prelude
  import opened Chunker

  /** The paragraph does not fit what waits before it, which must leave short. */
  predicate Overflows(before: int, s: Span, max: nat) {
    before > 0 && before + (s.end - s.start) > max
  }

  /** The length that waits to be packed after some paragraphs, from their lengths alone. */
  function Pending(spans: seq<Span>, min: int, max: nat): int {
    if spans == [] then 0 else PendingAfter(Pending(spans[..|spans| - 1], min, max), spans[|spans| - 1], min, max)
  }

  function PendingAfter(before: int, s: Span, min: int, max: nat): int {
    var length := s.end - s.start;
    if length > max then 0
    else
      var grown := if Overflows(before, s, max) then length else before + length;
      if grown >= min then 0 else grown
  }

  predicate AllReach(chunks: seq<Chunk>, min: int) {
    forall c | c in chunks :: c.end - c.start >= min
  }

  /** The pieces an oversized paragraph is cut into. */
  function PiecesOf(text: string, s: Span, max: nat): seq<Chunk>
    requires 1 <= max
  {
    if s.end - s.start > max && s.end <= |text| then HardSplit(text, s.start, s.end, max) else []
  }

  function ButLast<T>(s: seq<T>): seq<T> {
    if s == [] then [] else s[..|s| - 1]
  }

  /** A window is cut at least `min` characters on: it has a space that far on, or none at all. */
  ghost predicate CutLate(text: string, cursor: nat, min: int, max: nat)
    requires cursor + max < |text|
  {
    || (exists k :: cursor < k <= cursor + max && cursor + min <= k && text[k] == ' ')
    || (min <= max && forall k | cursor < k <= cursor + max :: text[k] != ' ')
  }

  /**
   Every window of an oversized stretch is cut late, and what remains in the end is long enough, if
   it counts.  The next window starts where the last one was cut.
   */
  ghost predicate WindowsReach(text: string, start: nat, end: nat, min: int, max: nat, counts: bool)
    requires 1 <= max && start <= end <= |text|
    decreases end - start
  {
    if end - start > max
    then CutLate(text, start, min, max) && WindowsReach(text, CutPoint(text, start, max), end, min, max, counts)
    else counts ==> end - start >= min
  }

  /** If the paragraph is oversized, its spaces are where they have to be. */
  ghost predicate SpacedOut(text: string, s: Span, min: int, max: nat, counts: bool)
    requires 1 <= max
  {
    s.end - s.start > max && s.end <= |text| ==> WindowsReach(text, s.start, s.end, min, max, counts)
  }

  /** Every paragraph leaves only chunks that reach the minimum: it forces none out early, and it is cut late. */
  ghost predicate NoneShort(text: string, spans: seq<Span>, min: int, max: nat)
    requires 1 <= max
  {
    spans != [] ==>
      var front, s := spans[..|spans| - 1], spans[|spans| - 1];
      && NoneShort(text, front, min, max)
      && !Overflows(Pending(front, min, max), s, max)
      && SpacedOut(text, s, min, max, true)
  }

  /** The condition on the whole text: as above, except that the last piece of the last paragraph may be short. */
  ghost predicate PacksFully(text: string, spans: seq<Span>, min: int, max: nat)
    requires 1 <= max
  {
    spans != [] ==>
      var front, s := spans[..|spans| - 1], spans[|spans| - 1];
      && NoneShort(text, front, min, max)
      && !Overflows(Pending(front, min, max), s, max)
      && SpacedOut(text, s, min, max, false)
  }

  // ------------------------------------------------------- one oversized paragraph

  lemma CutLateIff(text: string, cursor: nat, min: int, max: nat)
    requires 1 <= max && cursor + max < |text|
    ensures CutLate(text, cursor, min, max) <==> CutPoint(text, cursor, max) - cursor >= min
  {
    var cut := RFindSpace(text, cursor + 1, cursor + max + 1);
    if cut.Some? && cut.value - cursor >= min {
      assert text[cut.value] == ' ';
    }
  }

  /** The pieces reach the minimum exactly when the windows are cut late. */
  lemma {:induction false} PiecesReach(text: string, start: nat, end: nat, min: int, max: nat)
    requires 1 <= max && start <= end <= |text|
    ensures HardSplit(text, start, end, max) != []
    ensures AllReach(HardSplit(text, start, end, max), min) <==> WindowsReach(text, start, end, min, max, true)
    ensures AllReach(ButLast(HardSplit(text, start, end, max)), min)
       <==> WindowsReach(text, start, end, min, max, false)
    decreases end - start
  {
    if end - start > max {
      var cut := CutPoint(text, start, max);
      var piece, rest := Piece(text, start, cut), HardSplit(text, cut, end, max);
      CutLateIff(text, start, min, max);
      PiecesReach(text, cut, end, min, max);
      OneReach(piece, min);
      AllReachConcat([piece], rest, min);
      AllReachConcat([piece], ButLast(rest), min);
      ButLastConcat([piece], rest);
    } else {
      OneReach(Piece(text, start, end), min);
    }
  }

  lemma SpacedOutIff(text: string, s: Span, min: int, max: nat)
    requires 1 <= max
    ensures SpacedOut(text, s, min, max, true) <==> AllReach(PiecesOf(text, s, max), min)
    ensures SpacedOut(text, s, min, max, false) <==> AllReach(ButLast(PiecesOf(text, s, max)), min)
  {
    if s.end - s.start > max && s.end <= |text| {
      PiecesReach(text, s.start, s.end, min, max);
    }
  }

  // ---------------------------------------------------------------- one paragraph

  lemma AllReachConcat(a: seq<Chunk>, b: seq<Chunk>, min: int)
    ensures AllReach(a + b, min) <==> AllReach(a, min) && AllReach(b, min)
  {
    assert forall c | c in a :: c in a + b;
    assert forall c | c in b :: c in a + b;
  }

  lemma SpansSnoc(spans: seq<Span>, s: Span)
    ensures SpansLength(spans + [s]) == SpansLength(spans) + (s.end - s.start)
  {
    assert (spans + [s])[..|spans|] == spans;
  }

  /** What is packed so far, told by lengths: something waits, below the minimum, or nothing does. */
  ghost predicate Packed(p: Packer, before: int, min: int) {
    SpansLength(p.current) == before && (p.current == [] <==> before == 0) && (before != 0 ==> 0 < before < min)
  }

  /** Flushing what waits adds one chunk, of the length that waited. */
  lemma FlushAdds(text: string, p: Packer, mid: nat, max: nat)
    requires PackerAt(text, p, mid, max) && p.current != []
    ensures var done := FlushAll(text, p, mid, max).done;
      && done == p.done + [Piece(text, EndOf(p.done), mid)]
      && Piece(text, EndOf(p.done), mid).end - Piece(text, EndOf(p.done), mid).start == SpansLength(p.current)
  {
    TilesOrder(p.current, EndOf(p.done), mid);
    LengthOfTiles(p.current, EndOf(p.done), mid);
  }

  lemma OneReach(c: Chunk, min: int)
    ensures AllReach([c], min) <==> c.end - c.start >= min
  {
    assert c in [c];
  }

  /** One oversized paragraph. */
  lemma LongStep(text: string, p: Packer, s: Span, before: int, min: int, max: nat)
    requires 1 <= max && PackerAt(text, p, s.start, max) && s.start < s.end <= |text| && s.end - s.start > max
    requires Packed(p, before, min)
    ensures var r := Step(text, p, s, min, max);
      && r.current == []
      && r.done == FlushAll(text, p, s.start, max).done + HardSplit(text, s.start, s.end, max)
      && (AllReach(FlushAll(text, p, s.start, max).done, min) <==> AllReach(p.done, min) && before == 0)
  {
    if p.current != [] {
      FlushAdds(text, p, s.start, max);
      OneReach(Piece(text, EndOf(p.done), s.start), min);
      AllReachConcat(p.done, [Piece(text, EndOf(p.done), s.start)], min);
    }
  }

  /** Joining the waiting paragraphs: they leave together once they reach the minimum. */
  lemma JoinStep(text: string, q: Packer, s: Span, min: int, max: nat)
    requires s.start < s.end && PackerAt(text, Packer(q.done, q.current + [s]), s.end, max)
    requires SpansLength(q.current) >= 0
    ensures var grown := Packer(q.done, q.current + [s]);
      var length := SpansLength(q.current) + (s.end - s.start);
      var r := if SpansLength(grown.current) >= min then FlushAll(text, grown, s.end, max) else grown;
      && Packed(r, if length >= min then 0 else length, min)
      && (AllReach(r.done, min) <==> AllReach(q.done, min))
      && (r.current == [] ==>
            && r.done != [] && r.done[|r.done| - 1].end - r.done[|r.done| - 1].start >= min
            && ButLast(r.done) == q.done)
  {
    SpansSnoc(q.current, s);
    var grown := Packer(q.done, q.current + [s]);
    if SpansLength(grown.current) >= min {
      FlushAdds(text, grown, s.end, max);
      OneReach(Piece(text, EndOf(q.done), s.end), min);
      AllReachConcat(q.done, [Piece(text, EndOf(q.done), s.end)], min);
    }
  }

  /** A paragraph that does not fit what waits: that leaves short, and the paragraph starts afresh. */
  lemma OverflowStep(text: string, p: Packer, s: Span, before: int, min: int, max: nat)
    requires 1 <= max && PackerAt(text, p, s.start, max) && s.start < s.end <= |text| && s.end - s.start <= max
    requires Packed(p, before, min) && Overflows(before, s, max)
    ensures var r := Step(text, p, s, min, max);
      && Packed(r, PendingAfter(before, s, min, max), min)
      && !AllReach(r.done, min)
      && (r.current == [] ==> !AllReach(ButLast(r.done), min))
  {
    var piece := Piece(text, EndOf(p.done), s.start);
    FlushAdds(text, p, s.start, max);
    var q := Packer(p.done + [piece], []);
    assert FlushAll(text, p, s.start, max) == q;
    OneReach(piece, min);
    AllReachConcat(p.done, [piece], min);
    assert ([] + [s])[..0] == [];
    JoinStep(text, q, s, min, max);
  }

  /** A paragraph that fits joins what waits. */
  lemma FitStep(text: string, p: Packer, s: Span, before: int, min: int, max: nat)
    requires 1 <= max && PackerAt(text, p, s.start, max) && s.start < s.end <= |text| && s.end - s.start <= max
    requires Packed(p, before, min) && !Overflows(before, s, max)
    ensures var r := Step(text, p, s, min, max);
      && Packed(r, PendingAfter(before, s, min, max), min)
      && (AllReach(r.done, min) <==> AllReach(p.done, min))
      && (r.current == [] ==> ButLast(r.done) == p.done)
  {
    assert (p.current + [s])[..|p.current|] == p.current;
    JoinStep(text, p, s, min, max);
  }

  // ------------------------------------------------------------------ all of them

  lemma {:induction false} PackAllReach(text: string, spans: seq<Span>, mid: nat, min: int, max: nat)
    requires 1 <= max && Tiles(spans, 0, mid) && mid <= |text|
    ensures var p := PackAll(text, spans, mid, min, max);
      Packed(p, Pending(spans, min, max), min) && (AllReach(p.done, min) <==> NoneShort(text, spans, min, max))
  {
    if spans != [] {
      var n := |spans| - 1;
      var s, front := spans[n], spans[..n];
      var p, before := PackAll(text, front, s.start, min, max), Pending(front, min, max);
      PackAllReach(text, front, s.start, min, max);
      SpacedOutIff(text, s, min, max);
      if s.end - s.start > max {
        LongStep(text, p, s, before, min, max);
        AllReachConcat(FlushAll(text, p, s.start, max).done, HardSplit(text, s.start, s.end, max), min);
      } else if Overflows(before, s, max) {
        OverflowStep(text, p, s, before, min, max);
      } else {
        FitStep(text, p, s, before, min, max);
      }
    }
  }

  lemma ButLastConcat(a: seq<Chunk>, b: seq<Chunk>)
    requires b != []
    ensures ButLast(a + b) == a + ButLast(b)
  {
  }

  /** The same at the end of the text, where the last chunk does not count. */
  lemma AllButLastReach(text: string, spans: seq<Span>, min: int, max: nat)
    requires 1 <= max && Tiles(spans, 0, |text|) && spans != []
    ensures var done := FlushAll(text, PackAll(text, spans, |text|, min, max), |text|, max).done;
      AllReach(ButLast(done), min) <==> PacksFully(text, spans, min, max)
  {
    var n := |spans| - 1;
    var s, front := spans[n], spans[..n];
    var p, before := PackAll(text, front, s.start, min, max), Pending(front, min, max);
    var r := PackAll(text, spans, |text|, min, max);
    PackAllReach(text, front, s.start, min, max);
    SpacedOutIff(text, s, min, max);
    if s.end - s.start > max {
      var pieces := HardSplit(text, s.start, s.end, max);
      LongStep(text, p, s, before, min, max);
      ButLastConcat(FlushAll(text, p, s.start, max).done, pieces);
      AllReachConcat(FlushAll(text, p, s.start, max).done, ButLast(pieces), min);
    } else {
      if Overflows(before, s, max) {
        OverflowStep(text, p, s, before, min, max);
      } else {
        FitStep(text, p, s, before, min, max);
      }
      if r.current != [] {
        FlushAdds(text, r, |text|, max);
        assert ButLast(FlushAll(text, r, |text|, max).done) == r.done;
      }
    }
  }

  /**
   Every chunk but the last reaches the minimum exactly when no paragraph overflows what waits before
   it, and each window of an oversized one has a space at least `min` on or none at all, with a long
   enough rest unless it ends the text.
   */
  lemma ReachesMinimumIff(text: string, min: int, max: nat)
    requires 1 <= max
    ensures var chunks := Chunks(text, min, max);
      (forall i | 0 <= i < |chunks| - 1 :: |chunks[i].text| >= min) <==> PacksFully(text, SpansFrom(text, 0), min, max)
  {
    var chunks := Chunks(text, min, max);
    ChunksTile(text, min, max);
    ChunksReach(chunks, text, min, max);
    SpansTile(text, 0);
    if SpansFrom(text, 0) != [] {
      AllButLastReach(text, SpansFrom(text, 0), min, max);
    }
  }

  lemma ChunksReach(chunks: seq<Chunk>, text: string, min: int, max: nat)
    requires Covers(text, chunks, 0, |text|, max)
    ensures AllReach(ButLast(chunks), min) <==> forall i | 0 <= i < |chunks| - 1 :: |chunks[i].text| >= min
  {
    CoversEach(text, chunks, 0, |text|, max);
    ButLastReach(chunks, min);
  }

  lemma ButLastReach(chunks: seq<Chunk>, min: int)
    requires forall c | c in chunks :: c.start <= c.end && |c.text| == c.end - c.start
    ensures AllReach(ButLast(chunks), min) <==> forall i | 0 <= i < |chunks| - 1 :: |chunks[i].text| >= min
  {
    forall i | 0 <= i < |chunks| - 1 ensures chunks[i] in ButLast(chunks) {
      assert ButLast(chunks)[i] == chunks[i];
    }
  }

  /** No paragraph overflows what waits before it. */
  ghost predicate NoneOverflows(spans: seq<Span>, min: int, max: nat) {
    forall i | 0 <= i < |spans| :: !Overflows(Pending(spans[..i], min, max), spans[i], max)
  }

  lemma NoneOverflowsSnoc(spans: seq<Span>, min: int, max: nat)
    requires spans != []
    ensures NoneOverflows(spans, min, max) <==>
              && NoneOverflows(spans[..|spans| - 1], min, max)
              && !Overflows(Pending(spans[..|spans| - 1], min, max), spans[|spans| - 1], max)
  {
    var n, front := |spans| - 1, spans[..|spans| - 1];
    forall i | 0 <= i < n
      ensures Overflows(Pending(front[..i], min, max), front[i], max)
           == Overflows(Pending(spans[..i], min, max), spans[i], max)
    {
      assert front[..i] == spans[..i] && front[i] == spans[i];
    }
  }

  lemma {:induction false} NoneShortByLengths(text: string, spans: seq<Span>, min: int, max: nat)
    requires 1 <= max && forall s | s in spans :: s.end - s.start <= max
    ensures NoneShort(text, spans, min, max) <==> NoneOverflows(spans, min, max)
  {
    if spans != [] {
      NoneShortByLengths(text, spans[..|spans| - 1], min, max);
      NoneOverflowsSnoc(spans, min, max);
      assert spans[|spans| - 1] in spans;
    }
  }

  /** Without oversized paragraphs the condition is about lengths alone: no paragraph overflows what waits before it. */
  lemma ReachesMinimumByLengths(text: string, min: int, max: nat)
    requires 1 <= max && forall s | s in SpansFrom(text, 0) :: s.end - s.start <= max
    ensures var chunks, spans := Chunks(text, min, max), SpansFrom(text, 0);
      (forall i | 0 <= i < |chunks| - 1 :: |chunks[i].text| >= min)
      <==> NoneOverflows(spans, min, max)
  {
    var spans := SpansFrom(text, 0);
    ReachesMinimumIff(text, min, max);
    NoneShortByLengths(text, spans, min, max);
    if spans != [] {
      NoneOverflowsSnoc(spans, min, max);
      NoneShortByLengths(text, spans[..|spans| - 1], min, max);
      assert spans[|spans| - 1] in spans;
    }
  }
}
