/** What the text splitter promises: when it ends, that its windows cover the text, that no text
    is lost, and how long a chunk can be. */
module SplittingLaws {
  import opened Sequences
  import opened TextSplitting
  import opened Utf8

  // ---- When the byte-window loop ends ----

  /** `Progresses` is exactly that the loop reaches the end of the text after some number of rounds. */
  lemma LoopEndsIffProgresses(t: TextSplitter, text: Text)
    ensures (exists rounds :: t.StartAfter(text, 0, rounds) == |text|) <==> t.Progresses(text, 0)
  {
    if t.Progresses(text, 0) {
      var rounds := RoundsToEnd(t, text, 0);
    }
    if rounds :| t.StartAfter(text, 0, rounds) == |text| {
      EndReachedProgresses(t, text, 0, rounds);
    }
  }

  lemma {:induction false} RoundsToEnd(t: TextSplitter, text: Text, start: nat) returns (rounds: nat)
    requires start <= |text| && IsBoundary(text, start) && t.Progresses(text, start)
    ensures t.StartAfter(text, start, rounds) == |text|
    decreases |text| - start
  {
    if start == |text| {
      rounds := 0;
    } else {
      rounds := RoundsToEnd(t, text, t.NextStart(text, start));
      rounds := rounds + 1;
    }
  }

  lemma {:induction false} EndReachedProgresses(t: TextSplitter, text: Text, start: nat, rounds: nat)
    requires start <= |text| && IsBoundary(text, start) && t.StartAfter(text, start, rounds) == |text|
    ensures t.Progresses(text, start)
    decreases rounds
  {
    if start < |text| {
      var next := t.NextStart(text, start);
      EndReachedProgresses(t, text, next, rounds - 1);
      if next == start {
        StuckForever(t, text, start, rounds);
      }
    }
  }

  lemma {:induction false} StuckForever(t: TextSplitter, text: Text, start: nat, rounds: nat)
    requires start < |text| && IsBoundary(text, start) && t.NextStart(text, start) == start
    ensures t.StartAfter(text, start, rounds) == start
    decreases rounds
  {
    if rounds > 0 {
      StuckForever(t, text, start, rounds - 1);
    }
  }

  /** The least chunk size with which the loop ends on every text. */
  function MinimumWindow(overlap: nat): nat {
    if overlap == 0 then 4 else overlap + 7
  }

  lemma StepForward(t: TextSplitter, text: Text, start: nat)
    requires WellFormed(text) && start < |text| && IsBoundary(text, start)
    requires t.chunkSize >= MinimumWindow(t.chunkOverlap) || (IsAscii(text) && t.chunkSize > t.chunkOverlap)
    ensures start < t.NextStart(text, start)
  {
    hide Floor, WellFormed;
    NextBoundary(text, start);
    var end := t.WindowEnd(text, start);
    FloorIsNear(text, Min(start + t.chunkSize, |text|));
    FloorIsGreatest(text, |text|, |text|);
    if end < |text| && t.chunkOverlap > 0 {
      var back := end - Min(t.chunkOverlap, end - start);
      FloorIsNear(text, back);
      if !IsAscii(text) || t.chunkSize >= MinimumWindow(t.chunkOverlap) {
        FloorIsGreatest(text, back, start + Width(text[start]));
      }
    }
  }

  lemma {:induction false} WideWindowProgresses(t: TextSplitter, text: Text, start: nat)
    requires WellFormed(text) && start <= |text| && IsBoundary(text, start)
    requires t.chunkSize >= MinimumWindow(t.chunkOverlap) || (IsAscii(text) && t.chunkSize > t.chunkOverlap)
    ensures t.Progresses(text, start)
    decreases |text| - start
  {
    hide Floor, WellFormed;
    if start < |text| {
      StepForward(t, text, start);
      WideWindowProgresses(t, text, t.NextStart(text, start));
    }
  }

  /** One four-byte character, U+1F600. */
  const WIDE: Text := [0xF0, 0x9F, 0x98, 0x80]

  function Letters(n: nat): (s: Text)
    ensures |s| == n && (forall k :: 0 <= k < n ==> s[k] == 0x78) && WellFormed(s)
  {
    var s := seq(n, _ => 0x78 as byte);
    AsciiIsWellFormed(s);
    s
  }

  /** A text on which the loop of every splitter with this overlap and too small a window is stuck. */
  function StickyText(overlap: nat): (s: Text)
    ensures |s| == MinimumWindow(overlap)
  {
    if overlap == 0 then WIDE else WIDE + Letters(overlap - 1) + WIDE
  }

  lemma StickyTextIsWellFormed(overlap: nat)
    ensures WellFormed(StickyText(overlap))
  {
    assert WellFormed(WIDE) by {
      assert WIDE[4..] == [];
    }
    if overlap > 0 {
      ConcatIsWellFormed(WIDE, Letters(overlap - 1));
      ConcatIsWellFormed(WIDE + Letters(overlap - 1), WIDE);
    }
  }

  lemma NarrowWindowSticks(t: TextSplitter)
    requires t.chunkSize < MinimumWindow(t.chunkOverlap)
    ensures t.NextStart(StickyText(t.chunkOverlap), 0) == 0
  {
    hide WellFormed;
    var o := t.chunkOverlap;
    var text := StickyText(o);
    var end := t.WindowEnd(text, 0);
    assert forall k :: 1 <= k < 4 ==> !IsBoundary(text, k);
    if o > 0 {
      assert forall k :: o + 4 <= k < o + 7 ==> text[k] == WIDE[k - (o + 3)];
    }
  }

  /** The window loop ends on every text exactly when the window is wide enough for the overlap and
      two split characters. */
  lemma WindowLoopEndsOnEveryText(t: TextSplitter)
    ensures (forall text | WellFormed(text) :: t.Progresses(text, 0)) <==> t.chunkSize >= MinimumWindow(t.chunkOverlap)
  {
    if t.chunkSize >= MinimumWindow(t.chunkOverlap) {
      forall text | WellFormed(text)
        ensures t.Progresses(text, 0)
      {
        WideWindowProgresses(t, text, 0);
      }
    } else {
      var sticky := StickyText(t.chunkOverlap);
      StickyTextIsWellFormed(t.chunkOverlap);
      NarrowWindowSticks(t);
      assert WellFormed(sticky) && !t.Progresses(sticky, 0);
    }
  }

  /** On single-byte text, exactly when the window is longer than the overlap. */
  lemma WindowLoopEndsOnAsciiText(t: TextSplitter)
    ensures (forall text | IsAscii(text) :: t.Progresses(text, 0)) <==> t.chunkSize > t.chunkOverlap
  {
    if t.chunkSize > t.chunkOverlap {
      forall text | IsAscii(text)
        ensures t.Progresses(text, 0)
      {
        AsciiIsWellFormed(text);
        WideWindowProgresses(t, text, 0);
      }
    } else {
      var text := Letters(t.chunkSize + 1);
      assert t.WindowEnd(text, 0) == t.chunkSize;
      assert !t.Progresses(text, 0);
    }
  }

  // ---- When the recursive splitter ends ----

  /** Whole characters, and single-byte ones if `ascii`. */
  predicate Whole(s: Text, ascii: bool) {
    WellFormed(s) && (ascii ==> IsAscii(s))
  }

  predicate AllWhole(parts: seq<Text>, ascii: bool) {
    forall part :: part in parts ==> Whole(part, ascii)
  }

  lemma {:induction false} PiecesAreWhole(text: Text, separator: Text, ascii: bool)
    requires Whole(text, ascii) && WellFormed(separator) && separator != []
    ensures AllWhole(Split(text, separator), ascii)
    ensures |Split(text, separator)| > 1 ==> Whole(separator, ascii)
    decreases |text|
  {
    hide Find, WellFormed;
    var i := Find(text, separator, 0);
    if i <= |text| {
      MatchIsAtBoundaries(text, separator, i);
      assert ascii ==> IsAscii(text[i..i + |separator|]);
      PiecesAreWhole(text[i + |separator|..], separator, ascii);
    }
  }

  lemma {:induction false} WideWindowHalts(t: TextSplitter, text: Text, separators: seq<Text>)
    requires WellFormed(text) && AllWhole(separators, false)
    requires t.chunkSize >= MinimumWindow(t.chunkOverlap)
    ensures t.Halts(text, separators)
    decreases |separators|
  {
    hide WellFormed;
    if separators == [] || separators[0] == [] {
      WideWindowProgresses(t, text, 0);
    } else {
      assert separators[0] in separators;
      PiecesAreWhole(text, separators[0], false);
      forall piece | piece in Split(text, separators[0]) && |piece| > t.chunkSize
        ensures t.Halts(piece, separators[1..])
      {
        WideWindowHalts(t, piece, separators[1..]);
      }
    }
  }

  /** A separator that does not occur is passed over. */
  lemma AbsentSeparator(t: TextSplitter, text: Text, separators: seq<Text>)
    requires separators != [] && separators[0] != [] && Free(text, separators[0]) && |text| > t.chunkSize
    ensures t.Halts(text, separators) <==> t.Halts(text, separators[1..])
  {
    assert Split(text, separators[0]) == [text];
    assert text in Split(text, separators[0]);
  }

  /** With the default separators, every text can be split exactly when the window is wide enough. */
  lemma SplitterEndsOnEveryText(t: TextSplitter)
    requires t.separators == DefaultSeparators()
    ensures (forall text | WellFormed(text) :: t.CanSplit(text)) <==> t.chunkSize >= MinimumWindow(t.chunkOverlap)
  {
    hide WellFormed;
    if t.chunkSize >= MinimumWindow(t.chunkOverlap) {
      forall text | WellFormed(text)
        ensures t.CanSplit(text)
      {
        DefaultSeparatorsAreBlank();
        WideWindowHalts(t, text, t.separators);
      }
    } else {
      NarrowWindowCannotSplit(t);
    }
  }

  lemma NarrowWindowCannotSplit(t: TextSplitter)
    requires t.separators == DefaultSeparators() && t.chunkSize < MinimumWindow(t.chunkOverlap)
    ensures WellFormed(StickyText(t.chunkOverlap)) && !t.CanSplit(StickyText(t.chunkOverlap))
  {
    hide WellFormed, StickyText;
    var sticky := StickyText(t.chunkOverlap);
    var s := t.separators;
    StickyTextIsWellFormed(t.chunkOverlap);
    StickyTextHasNoBlank(t.chunkOverlap);
    NarrowWindowSticks(t);
    assert !t.Halts(sticky, s[3..]);
    AbsentSeparator(t, sticky, s[2..]);
    assert s[2..][1..] == s[3..];
    AbsentSeparator(t, sticky, s[1..]);
    assert s[1..][1..] == s[2..];
    AbsentSeparator(t, sticky, s);
  }

  /** Newline and space: the only bytes in the default separators. */
  const BLANK: set<byte> := {0x0A, 0x20}

  lemma DefaultSeparatorsAreBlank()
    ensures AllWhole(DefaultSeparators(), false)
    ensures AllFrom(DefaultSeparators(), BLANK)
  {
    forall s | s in DefaultSeparators()
      ensures WellFormed(s)
    {
      AsciiIsWellFormed(s);
    }
  }

  predicate AllFrom(separators: seq<Text>, dropped: set<byte>) {
    forall separator, b :: separator in separators && b in separator ==> b in dropped
  }

  lemma AbsentByteIsFree(s: Text, pattern: Text)
    requires pattern != [] && pattern[0] !in s
    ensures Free(s, pattern)
  {
    forall j | 0 <= j <= |s| && j + |pattern| <= |s|
      ensures !MatchesAt(s, pattern, j)
    {
      assert s[j..j + |pattern|][0] == s[j];
    }
  }

  lemma StickyTextHasNoBlank(overlap: nat)
    ensures forall k :: 0 <= k < 3 ==> Free(StickyText(overlap), DefaultSeparators()[k])
  {
    forall k | 0 <= k < 3
      ensures Free(StickyText(overlap), DefaultSeparators()[k])
    {
      AbsentByteIsFree(StickyText(overlap), DefaultSeparators()[k]);
    }
  }

  // ---- The windows cover the text ----

  /** Window `b` starts later than `a`, no later than where `a` ends, and ends no earlier. */
  predicate Follows(a: Span, b: Span) {
    a.start < b.start <= a.end <= b.end
  }

  /** The spans run from `start` to the end of the text, on character boundaries, none longer than
      `limit`, and each one follows the one before without a gap. */
  predicate Covers(spans: seq<Span>, text: Text, start: nat, limit: nat) {
    if spans == [] then start == |text|
    else
      && start == spans[0].start < spans[0].end <= |text| && spans[0].end <= start + limit
      && IsBoundary(text, start) && IsBoundary(text, spans[0].end)
      && (if |spans| == 1 then spans[0].end == |text|
          else Follows(spans[0], spans[1]) && Covers(spans[1..], text, spans[1].start, limit))
  }

  lemma WindowEndsDoNotRecede(t: TextSplitter, text: Text, start: nat)
    requires start < |text| && IsBoundary(text, start) && t.NextStart(text, start) < |text|
    ensures t.WindowEnd(text, start) <= t.WindowEnd(text, t.NextStart(text, start))
  {
    hide Floor;
    FloorIsGreatest(text, Min(t.NextStart(text, start) + t.chunkSize, |text|), t.WindowEnd(text, start));
  }

  lemma {:induction false} WindowsCover(t: TextSplitter, text: Text, start: nat)
    requires start <= |text| && IsBoundary(text, start) && t.Progresses(text, start)
    ensures Covers(t.Windows(text, start), text, start, t.chunkSize)
    decreases |text| - start
  {
    hide Floor, IsBoundary;
    if start < |text| {
      var next := t.NextStart(text, start);
      WindowsCover(t, text, next);
      if next < |text| {
        WindowEndsDoNotRecede(t, text, start);
        assert t.Windows(text, start)[1..] == t.Windows(text, next);
      }
    }
  }

  /** The chunks are the texts of the windows. */
  lemma {:induction false} ChunksAreWindows(t: TextSplitter, text: Text, start: nat)
    requires start <= |text| && IsBoundary(text, start) && t.Progresses(text, start)
    ensures var spans, chunks := t.Windows(text, start), t.ByLength(text, start);
            |chunks| == |spans| && forall i :: 0 <= i < |spans| ==>
              spans[i].start <= spans[i].end <= |text| && chunks[i] == text[spans[i].start..spans[i].end]
    decreases |text| - start
  {
    hide Floor, IsBoundary;
    if start < |text| {
      ChunksAreWindows(t, text, t.NextStart(text, start));
    }
  }

  function Drop(s: Text, n: int): Text {
    if 0 <= n <= |s| then s[n..] else []
  }

  /** The chunks put together again, each without what it shares with the text already `rebuilt`. */
  function Rebuild(chunks: seq<Text>, spans: seq<Span>, rebuilt: nat): Text {
    if chunks == [] || spans == [] then []
    else Drop(chunks[0], rebuilt - spans[0].start) + Rebuild(chunks[1..], spans[1..], spans[0].end)
  }

  lemma {:induction false} RebuildFrom(t: TextSplitter, text: Text, start: nat, rebuilt: nat)
    requires start <= |text| && IsBoundary(text, start) && t.Progresses(text, start)
    requires start <= rebuilt <= |text| && (start < |text| ==> rebuilt <= t.WindowEnd(text, start))
    ensures Rebuild(t.ByLength(text, start), t.Windows(text, start), rebuilt) == text[rebuilt..]
    decreases |text| - start
  {
    hide Floor, IsBoundary;
    if start < |text| {
      var next, end := t.NextStart(text, start), t.WindowEnd(text, start);
      if next < |text| {
        WindowEndsDoNotRecede(t, text, start);
      }
      RebuildFrom(t, text, next, end);
      assert text[rebuilt..] == text[start..end][rebuilt - start..] + text[end..];
    }
  }

  /** The byte-window splitter can be undone: its windows cover the text from end to end, each chunk
      is the text of its window, and the chunks without their overlaps are the text again. */
  lemma ByLengthCanBeUndone(t: TextSplitter, text: Text)
    requires t.Progresses(text, 0)
    ensures Covers(t.Windows(text, 0), text, 0, t.chunkSize)
    ensures |t.ByLength(text, 0)| == |t.Windows(text, 0)|
    ensures Rebuild(t.ByLength(text, 0), t.Windows(text, 0), 0) == text
  {
    hide Covers, Rebuild;
    WindowsCover(t, text, 0);
    ChunksAreWindows(t, text, 0);
    RebuildFrom(t, text, 0, 0);
  }

  /** The step back is the overlap asked for, or up to three bytes more to reach a boundary. */
  lemma OverlapIsAsAsked(t: TextSplitter, text: Text, start: nat)
    requires WellFormed(text) && start < |text| && IsBoundary(text, start)
    requires t.WindowEnd(text, start) < |text| && t.chunkOverlap <= t.WindowEnd(text, start) - start
    ensures var overlap := t.WindowEnd(text, start) - t.NextStart(text, start);
            t.chunkOverlap <= overlap
                <= (if t.chunkOverlap == 0 || IsAscii(text) then t.chunkOverlap else t.chunkOverlap + 3)
  {
    hide Floor, WellFormed;
    FloorIsNear(text, t.WindowEnd(text, start) - t.chunkOverlap);
  }

  /** Windows are as wide as they can be: up to the end of the text, or within three bytes of the chunk
      size, to end at a boundary; exactly so wide for single-byte text. */
  lemma WindowsAreFull(t: TextSplitter, text: Text, start: nat)
    requires WellFormed(text) && start < |text| && IsBoundary(text, start)
    ensures var end := t.WindowEnd(text, start);
            && (start + t.chunkSize >= |text| ==> end == |text|)
            && (start + t.chunkSize < |text| ==> start + t.chunkSize - 3 <= end <= start + t.chunkSize)
            && (IsAscii(text) && start + t.chunkSize < |text| ==> end == start + t.chunkSize)
  {
    hide Floor, WellFormed;
    var limit := Min(start + t.chunkSize, |text|);
    FloorIsNear(text, limit);
    if limit == |text| || IsAscii(text) {
      FloorIsGreatest(text, limit, limit);
    }
  }

  // ---- The overlap between pieces ----

  /** What was being built at `q` begins a chunk that is being built, or is finished, at `p`. */
  predicate Begins(q: Progress, p: Progress) {
    && q.chunks <= p.chunks
    && (q.current == [] ||
        if |p.chunks| == |q.chunks| then q.current <= p.current else q.current <= p.chunks[|q.chunks|])
  }

  lemma AbsorbGoesOn(t: TextSplitter, q: Progress, p: Progress, separators: seq<Text>, piece: Text)
    requires separators != [] && (|piece| > t.chunkSize ==> t.Halts(piece, separators[1..])) && Begins(q, p)
    ensures Begins(q, t.Absorb(p, separators, piece))
  {
    hide TextSplitter.Chunks, TextSplitter.OverlapTail, TextSplitter.Halts;
  }

  lemma {:induction false} LaterBeginsWith(t: TextSplitter, pieces: seq<Text>, separators: seq<Text>, n: nat)
    requires separators != [] && n <= |pieces|
    requires forall piece :: piece in pieces && |piece| > t.chunkSize ==> t.Halts(piece, separators[1..])
    ensures Begins(t.AbsorbAll(pieces[..n], separators), t.AbsorbAll(pieces, separators))
    decreases |pieces|
  {
    hide TextSplitter.Absorb, TextSplitter.Halts, Begins;
    if n < |pieces| {
      var before := pieces[..|pieces| - 1];
      LaterBeginsWith(t, before, separators, n);
      assert before[..n] == pieces[..n];
      AbsorbGoesOn(t, t.AbsorbAll(pieces[..n], separators), t.AbsorbAll(before, separators), separators,
          pieces[|pieces| - 1]);
    } else {
      assert pieces[..n] == pieces;
      BeginsItself(t.AbsorbAll(pieces, separators));
    }
  }

  lemma BeginsItself(p: Progress)
    ensures Begins(p, p)
  {
  }

  /** What a finished chunk leaves to the next one: if it is longer than the overlap, its end, as long as
      the overlap, or up to three bytes longer to reach a boundary; otherwise nothing. */
  predicate IsOverlap(t: TextSplitter, chunk: Text, tail: Text) {
    && |tail| <= |chunk| && tail == chunk[|chunk| - |tail|..]
    && (if t.chunkOverlap > 0 && |chunk| > t.chunkOverlap then
          t.chunkOverlap <= |tail| <= t.chunkOverlap + (if IsAscii(chunk) then 0 else 3)
        else tail == [])
  }

  lemma TailIsOverlap(t: TextSplitter, chunk: Text)
    requires WellFormed(chunk)
    ensures IsOverlap(t, chunk, t.OverlapTail(chunk))
  {
    hide Floor, WellFormed;
    if t.chunkOverlap > 0 && |chunk| > t.chunkOverlap {
      FloorIsNear(chunk, |chunk| - t.chunkOverlap);
      if IsAscii(chunk) {
        FloorIsGreatest(chunk, |chunk| - t.chunkOverlap, |chunk| - t.chunkOverlap);
      }
    }
  }

  /** The chunks of a level: the finished ones, and the last. */
  lemma ChunksOfLevel(t: TextSplitter, text: Text, separators: seq<Text>)
    requires t.Halts(text, separators) && separators != [] && separators[0] != []
    ensures var p := t.AbsorbAll(Split(text, separators[0]), separators);
            t.Chunks(text, separators) == p.chunks + (if p.current == [] then [] else [p.current])
  {
    hide TextSplitter.AbsorbAll;
  }

  lemma {:induction false} CurrentIsWhole(t: TextSplitter, pieces: seq<Text>, separators: seq<Text>)
    requires separators != [] && AllWhole(separators, false) && AllWhole(pieces, false)
    requires forall piece :: piece in pieces && |piece| > t.chunkSize ==> t.Halts(piece, separators[1..])
    ensures WellFormed(t.AbsorbAll(pieces, separators).current)
  {
    hide WellFormed, TextSplitter.OverlapTail, TextSplitter.Chunks, TextSplitter.Halts;
    AsciiIsWellFormed([]);
    if pieces != [] {
      var n := |pieces| - 1;
      CurrentIsWhole(t, pieces[..n], separators);
      var p := t.AbsorbAll(pieces[..n], separators);
      assert separators[0] in separators && pieces[n] in pieces;
      GlueIsWhole(t, p.current, separators[0], pieces[n], false);
      TailIsShort(t, p.current, false);
      GlueIsWhole(t, t.OverlapTail(p.current), separators[0], pieces[n], false);
    }
  }

  /** The overlap is carried over. If piece `n` does not fit behind the chunk being built, that chunk is
      finished as it is; and if the piece fits into a chunk, the next chunk begins with the overlap of
      the one before, the separator and the piece, or with the piece if there is no overlap. */
  lemma OverlapIsCarried(t: TextSplitter, text: Text, separators: seq<Text>, n: nat) returns (tail: Text)
    requires WellFormed(text) && AllWhole(separators, false) && t.Halts(text, separators)
    requires separators != [] && separators[0] != [] && n < |Split(text, separators[0])|
    requires var pieces := Split(text, separators[0]);
             var built := t.AbsorbAll(pieces[..n], separators).current;
             built != [] && |built| + |separators[0]| + |pieces[n]| > t.chunkSize
    ensures var pieces, chunks := Split(text, separators[0]), t.Chunks(text, separators);
            var p := t.AbsorbAll(pieces[..n], separators);
            var k, separator, piece := |p.chunks|, separators[0], pieces[n];
            && k < |chunks| && p.chunks <= chunks && chunks[k] == p.current
            && IsOverlap(t, chunks[k], tail)
            && (|piece| <= t.chunkSize && tail != [] ==> k + 1 < |chunks| && tail + separator + piece <= chunks[k + 1])
            && (|piece| <= t.chunkSize && tail == [] && piece != [] ==> k + 1 < |chunks| && piece <= chunks[k + 1])
  {
    hide WellFormed, TextSplitter.OverlapTail, IsOverlap, Split, TextSplitter.Absorb, TextSplitter.Chunks, Begins;
    var pieces, chunks := Split(text, separators[0]), t.Chunks(text, separators);
    assert separators[0] in separators;
    PiecesAreWhole(text, separators[0], false);
    HaltsPiecewise(t, text, separators);
    hide TextSplitter.Halts;
    var p, next := t.AbsorbAll(pieces[..n], separators), t.AbsorbAll(pieces[..n + 1], separators);
    CurrentIsWhole(t, pieces[..n], separators);
    TailIsOverlap(t, p.current);
    tail := t.OverlapTail(p.current);
    assert pieces[..n + 1][..n] == pieces[..n];
    OverflowFinishes(t, p, separators, pieces[n]);
    LaterBeginsWith(t, pieces, separators, n + 1);
    ChunksOfLevel(t, text, separators);
    hide TextSplitter.AbsorbAll;
    BegunIsChunk(next, t.AbsorbAll(pieces, separators), chunks);
  }

  lemma HaltsPiecewise(t: TextSplitter, text: Text, separators: seq<Text>)
    requires t.Halts(text, separators) && separators != [] && separators[0] != []
    ensures forall piece :: piece in Split(text, separators[0]) && |piece| > t.chunkSize ==>
            t.Halts(piece, separators[1..])
  {
  }

  lemma OverflowFinishes(t: TextSplitter, p: Progress, separators: seq<Text>, piece: Text)
    requires separators != [] && (|piece| > t.chunkSize ==> t.Halts(piece, separators[1..]))
    requires p.current != [] && |p.current| + |separators[0]| + |piece| > t.chunkSize
    ensures var next := t.Absorb(p, separators, piece);
            && p.chunks + [p.current] <= next.chunks
            && (|piece| <= t.chunkSize ==>
                  next == Progress(p.chunks + [p.current], t.Glue(t.OverlapTail(p.current), separators[0], piece)))
  {
    hide TextSplitter.OverlapTail, TextSplitter.Chunks, TextSplitter.Halts;
  }

  /** What is being built, if anything, begins the next chunk in the end. */
  lemma BegunIsChunk(q: Progress, p: Progress, chunks: seq<Text>)
    requires Begins(q, p) && chunks == p.chunks + (if p.current == [] then [] else [p.current])
    ensures q.chunks <= chunks && (q.current != [] ==> |q.chunks| < |chunks| && q.current <= chunks[|q.chunks|])
  {
  }

  // ---- Chunks are as long as they can be ----

  /** Pieces glued one after the other to a beginning. */
  function GlueAll(t: TextSplitter, start: Text, separator: Text, pieces: seq<Text>): Text {
    if pieces == [] then start
    else t.Glue(GlueAll(t, start, separator, pieces[..|pieces| - 1]), separator, pieces[|pieces| - 1])
  }

  /** What chunk `k` begins with. */
  function Carried(t: TextSplitter, chunks: seq<Text>, k: nat): Text
    requires k <= |chunks|
  {
    if k == 0 then [] else t.OverlapTail(chunks[k - 1])
  }

  /** Chunk `k` holds the pieces from `lo` up to `hi` behind what is carried over. It is within the chunk
      size unless there is one piece only, and with the next piece it would not be. */
  predicate IsFull(t: TextSplitter, separator: Text, pieces: seq<Text>, chunks: seq<Text>, k: nat, lo: nat, hi: nat) {
    && k < |chunks| && lo < hi < |pieces|
    && chunks[k] == GlueAll(t, Carried(t, chunks, k), separator, pieces[lo..hi])
    && (|chunks[k]| <= t.chunkSize || hi == lo + 1)
    && |chunks[k]| + |separator| + |pieces[hi]| > t.chunkSize
  }

  /** The finished chunks hold the pieces up to the last cut, each as many as fit, and the rest is in the
      chunk being built. */
  ghost predicate IsGreedy(t: TextSplitter, separator: Text, pieces: seq<Text>, p: Progress, cuts: seq<nat>) {
    && |cuts| == |p.chunks| + 1 && cuts[0] == 0 && cuts[|cuts| - 1] <= |pieces|
    && (cuts[|cuts| - 1] == |pieces| ==> pieces == [])
    && (forall k: nat :: k < |p.chunks| ==> IsFull(t, separator, pieces, p.chunks, k, cuts[k], cuts[k + 1]))
    && p.current == GlueAll(t, Carried(t, p.chunks, |p.chunks|), separator, pieces[cuts[|cuts| - 1]..])
    && (|p.current| <= t.chunkSize || cuts[|cuts| - 1] + 1 == |pieces|)
  }

  lemma GlueOne(t: TextSplitter, start: Text, separator: Text, piece: Text)
    ensures GlueAll(t, start, separator, [piece]) == t.Glue(start, separator, piece)
  {
    assert [piece][..0] == [];
  }

  lemma FullStaysFull(t: TextSplitter, separator: Text, pieces: seq<Text>, more: seq<Text>, chunks: seq<Text>,
                      longer: seq<Text>, k: nat, lo: nat, hi: nat)
    requires IsFull(t, separator, pieces, chunks, k, lo, hi) && pieces <= more && chunks <= longer
    ensures IsFull(t, separator, more, longer, k, lo, hi)
  {
    hide TextSplitter.OverlapTail;
    assert more[lo..hi] == pieces[lo..hi];
  }

  /** When every piece of a level fits into a chunk, each chunk holds as many pieces as fit. */
  lemma {:induction false} ChunksAreGreedy(t: TextSplitter, pieces: seq<Text>, separators: seq<Text>)
    returns (cuts: seq<nat>)
    requires separators != [] && forall piece :: piece in pieces ==> |piece| <= t.chunkSize
    ensures IsGreedy(t, separators[0], pieces, t.AbsorbAll(pieces, separators), cuts)
  {
    hide TextSplitter.OverlapTail, TextSplitter.Chunks, IsFull, IsGreedy;
    if pieces == [] {
      cuts := [0];
      NothingIsGreedy(t, separators[0]);
    } else {
      var n := |pieces| - 1;
      var before, piece := pieces[..n], pieces[n];
      cuts := ChunksAreGreedy(t, before, separators);
      var p, q := t.AbsorbAll(before, separators), t.AbsorbAll(pieces, separators);
      assert piece in pieces;
      assert q == t.Absorb(p, separators, piece);
      if |t.Glue(p.current, separators[0], piece)| > t.chunkSize {
        OneMoreChunk(t, separators[0], pieces, p, q, cuts);
        cuts := cuts + [n];
      } else {
        SameChunks(t, separators[0], pieces, p, q, cuts);
      }
    }
  }

  lemma NothingIsGreedy(t: TextSplitter, separator: Text)
    ensures IsGreedy(t, separator, [], Progress([], []), [0])
  {
  }

  lemma EmptyIsGreedy(t: TextSplitter, separator: Text, p: Progress, cuts: seq<nat>)
    requires IsGreedy(t, separator, [], p, cuts)
    ensures p.current == []
  {
    if |p.chunks| > 0 {
      NothingIsFull(t, separator, p.chunks, 0, cuts[0], cuts[1]);
    }
  }

  lemma NothingIsFull(t: TextSplitter, separator: Text, chunks: seq<Text>, k: nat, lo: nat, hi: nat)
    ensures !IsFull(t, separator, [], chunks, k, lo, hi)
  {
  }

  lemma SameChunks(t: TextSplitter, separator: Text, pieces: seq<Text>, p: Progress, q: Progress, cuts: seq<nat>)
    requires pieces != [] && IsGreedy(t, separator, pieces[..|pieces| - 1], p, cuts)
    requires q == Progress(p.chunks, t.Glue(p.current, separator, pieces[|pieces| - 1])) && |q.current| <= t.chunkSize
    ensures IsGreedy(t, separator, pieces, q, cuts)
  {
    hide TextSplitter.OverlapTail, IsFull;
    var n, last := |pieces| - 1, cuts[|cuts| - 1];
    forall k: nat | k < |p.chunks|
      ensures IsFull(t, separator, pieces, q.chunks, k, cuts[k], cuts[k + 1])
    {
      FullStaysFull(t, separator, pieces[..n], pieces, p.chunks, q.chunks, k, cuts[k], cuts[k + 1]);
    }
    assert pieces[last..][..|pieces[last..]| - 1] == pieces[..n][last..];
  }

  lemma OneMoreChunk(t: TextSplitter, separator: Text, pieces: seq<Text>, p: Progress, q: Progress, cuts: seq<nat>)
    requires pieces != [] && IsGreedy(t, separator, pieces[..|pieces| - 1], p, cuts)
    requires p.current != [] && |p.current| + |separator| + |pieces[|pieces| - 1]| > t.chunkSize
    requires q == Progress(p.chunks + [p.current], t.Glue(t.OverlapTail(p.current), separator, pieces[|pieces| - 1]))
    ensures IsGreedy(t, separator, pieces, q, cuts + [|pieces| - 1])
  {
    hide TextSplitter.OverlapTail;
    var n, last := |pieces| - 1, cuts[|cuts| - 1];
    var longer := cuts + [n];
    if pieces[..n] == [] {
      EmptyIsGreedy(t, separator, p, cuts);
    }
    assert pieces[last..n] == pieces[..n][last..];
    assert IsFull(t, separator, pieces, q.chunks, |p.chunks|, last, n);
    hide IsFull;
    forall k: nat | k < |q.chunks|
      ensures IsFull(t, separator, pieces, q.chunks, k, longer[k], longer[k + 1])
    {
      if k < |p.chunks| {
        FullStaysFull(t, separator, pieces[..n], pieces, p.chunks, q.chunks, k, cuts[k], cuts[k + 1]);
      }
    }
    GlueOne(t, t.OverlapTail(p.current), separator, pieces[n]);
    assert pieces[n..] == [pieces[n]];
  }

  // ---- How long a chunk can be ----

  predicate NoLonger(separators: seq<Text>, longest: nat) {
    forall separator :: separator in separators ==> |separator| <= longest
  }

  /** The longest chunk: without overlap the chunk size; with it, an overlap tail (up to three bytes
      longer to reach a boundary in multi-byte text) and a separator may precede a full-size piece. */
  function LongestChunk(t: TextSplitter, longest: nat, ascii: bool): nat {
    if t.chunkOverlap == 0 then t.chunkSize
    else t.chunkSize + t.chunkOverlap + longest + (if ascii then 0 else 3)
  }

  /** Whole characters, not empty, and within the bound. */
  predicate SoundChunk(t: TextSplitter, chunk: Text, longest: nat, ascii: bool) {
    Whole(chunk, ascii) && 0 < |chunk| <= LongestChunk(t, longest, ascii)
  }

  predicate SoundChunks(t: TextSplitter, chunks: seq<Text>, longest: nat, ascii: bool) {
    forall chunk :: chunk in chunks ==> SoundChunk(t, chunk, longest, ascii)
  }

  lemma WindowIsWhole(t: TextSplitter, text: Text, start: nat, ascii: bool)
    requires Whole(text, ascii) && start < |text| && IsBoundary(text, start)
    ensures Whole(text[start..t.WindowEnd(text, start)], ascii)
  {
    hide Floor, WellFormed;
    var end := t.WindowEnd(text, start);
    CutAtBoundary(text, start);
    BoundaryOfSuffix(text, start, end - start);
    CutAtBoundary(text[start..], end - start);
    assert text[start..][..end - start] == text[start..end];
  }

  lemma {:induction false} ByLengthIsSound(t: TextSplitter, text: Text, start: nat, longest: nat, ascii: bool)
    requires Whole(text, ascii) && start <= |text| && IsBoundary(text, start) && t.Progresses(text, start)
    ensures SoundChunks(t, t.ByLength(text, start), longest, ascii)
    decreases |text| - start
  {
    hide Floor, Whole, IsBoundary;
    if start < |text| {
      WindowIsWhole(t, text, start, ascii);
      ByLengthIsSound(t, text, t.NextStart(text, start), longest, ascii);
    }
  }

  lemma GlueIsWhole(t: TextSplitter, current: Text, separator: Text, piece: Text, ascii: bool)
    requires Whole(current, ascii) && Whole(piece, ascii) && (current != [] ==> Whole(separator, ascii))
    ensures Whole(t.Glue(current, separator, piece), ascii)
  {
    hide WellFormed;
    if current != [] {
      ConcatIsWellFormed(current, separator);
      ConcatIsWellFormed(current + separator, piece);
    }
  }

  lemma TailIsShort(t: TextSplitter, current: Text, ascii: bool)
    requires Whole(current, ascii)
    ensures Whole(t.OverlapTail(current), ascii)
    ensures |t.OverlapTail(current)| <= if t.chunkOverlap == 0 then 0 else t.chunkOverlap + (if ascii then 0 else 3)
  {
    hide Floor, WellFormed;
    AsciiIsWellFormed([]);
    if t.chunkOverlap > 0 && |current| > t.chunkOverlap {
      FloorIsNear(current, |current| - t.chunkOverlap);
      CutAtBoundary(current, Floor(current, |current| - t.chunkOverlap));
    }
  }

  /** What the loop over the pieces keeps: finished chunks are sound, and so is the one being built
      as soon as it is not empty. */
  predicate SoundProgress(t: TextSplitter, p: Progress, longest: nat, ascii: bool) {
    && SoundChunks(t, p.chunks, longest, ascii)
    && Whole(p.current, ascii) && |p.current| <= LongestChunk(t, longest, ascii)
  }

  lemma FlushIsSound(t: TextSplitter, p: Progress, longest: nat, ascii: bool)
    requires SoundProgress(t, p, longest, ascii)
    ensures SoundProgress(t, t.Flush(p), longest, ascii)
    ensures |t.Flush(p).current| + longest + t.chunkSize <= LongestChunk(t, longest, ascii) || t.Flush(p).current == []
  {
    hide WellFormed, TextSplitter.OverlapTail;
    if p.current != [] {
      TailIsShort(t, p.current, ascii);
    }
  }

  lemma {:induction false} AbsorbIsSound(t: TextSplitter, p: Progress, separators: seq<Text>, piece: Text,
                                         longest: nat, ascii: bool)
    requires separators != [] && AllWhole(separators, false) && NoLonger(separators, longest)
    requires |piece| > t.chunkSize ==> t.Halts(piece, separators[1..])
    requires SoundProgress(t, p, longest, ascii) && Whole(piece, ascii)
    requires p.current != [] ==> Whole(separators[0], ascii)
    ensures SoundProgress(t, t.Absorb(p, separators, piece), longest, ascii)
    decreases |separators|, 0, 0
  {
    hide WellFormed, TextSplitter.Flush, TextSplitter.Halts;
    assert separators[0] in separators;
    GlueIsWhole(t, p.current, separators[0], piece, ascii);
    FlushIsSound(t, p, longest, ascii);
    var flushed := t.Flush(p);
    assert flushed.current != [] ==> p.current != [] by { FlushKeepsEmpty(t, p); }
    GlueIsWhole(t, flushed.current, separators[0], piece, ascii);
    if |piece| > t.chunkSize {
      ChunksAreSound(t, piece, separators[1..], longest, ascii);
    }
  }

  lemma FlushKeepsEmpty(t: TextSplitter, p: Progress)
    ensures p.current == [] ==> t.Flush(p).current == []
  {
  }

  lemma {:induction false} AbsorbAllIsSound(t: TextSplitter, pieces: seq<Text>, separators: seq<Text>, longest: nat,
                                            ascii: bool)
    requires separators != [] && AllWhole(separators, false) && NoLonger(separators, longest)
    requires forall piece :: piece in pieces && |piece| > t.chunkSize ==> t.Halts(piece, separators[1..])
    requires AllWhole(pieces, ascii) && (|pieces| > 1 ==> Whole(separators[0], ascii))
    ensures SoundProgress(t, t.AbsorbAll(pieces, separators), longest, ascii)
    decreases |separators|, 0, |pieces| + 1
  {
    hide WellFormed, TextSplitter.Absorb, TextSplitter.Halts;
    AsciiIsWellFormed([]);
    if pieces != [] {
      var n := |pieces| - 1;
      AbsorbAllIsSound(t, pieces[..n], separators, longest, ascii);
      assert n == 0 ==> pieces[..n] == [];
      AbsorbIsSound(t, t.AbsorbAll(pieces[..n], separators), separators, pieces[n], longest, ascii);
    }
  }

  /** Every chunk is made of whole characters, is not empty, and is no longer than the bound. */
  lemma {:induction false} ChunksAreSound(t: TextSplitter, text: Text, separators: seq<Text>, longest: nat, ascii: bool)
    requires Whole(text, ascii) && AllWhole(separators, false) && NoLonger(separators, longest)
    requires t.Halts(text, separators)
    ensures SoundChunks(t, t.Chunks(text, separators), longest, ascii)
    decreases |separators|, 1, 0
  {
    hide WellFormed, TextSplitter.AbsorbAll;
    if separators == [] || separators[0] == [] {
      ByLengthIsSound(t, text, 0, longest, ascii);
    } else {
      assert separators[0] in separators;
      PiecesAreWhole(text, separators[0], ascii);
      AbsorbAllIsSound(t, Split(text, separators[0]), separators, longest, ascii);
    }
  }

  // ---- No text is lost ----

  /** The bytes of `text` that are not `dropped` are all in `chunks`, in order; if no overlap is
      repeated they are all there is. */
  ghost predicate Survives(t: TextSplitter, text: Text, chunks: Text, dropped: set<byte>) {
    && Subsequence(Without(text, dropped), Without(chunks, dropped))
    && (t.chunkOverlap == 0 ==> Without(text, dropped) == Without(chunks, dropped))
  }

  lemma OverlappingStep(text: Text, start: nat, next: nat, end: nat, rest: Text)
    requires start <= next <= end <= |text| && Subsequence(text[next..], rest)
    ensures Subsequence(text[start..], text[start..end] + rest)
  {
    hide Subsequence;
    SubsequenceOfItself(text[end..]);
    SubsequencePadded(text[end..], text[next..end], text[end..], []);
    assert text[next..end] + text[end..] + [] == text[next..];
    SubsequenceIsTransitive(text[end..], text[next..], rest);
    SubsequenceOfItself(text[start..end]);
    SubsequenceConcat(text[start..end], text[start..end], text[end..], rest);
    assert text[start..end] + text[end..] == text[start..];
  }

  lemma {:induction false} ByLengthKeepsText(t: TextSplitter, text: Text, start: nat)
    requires start <= |text| && IsBoundary(text, start) && t.Progresses(text, start)
    ensures Subsequence(text[start..], Flatten(t.ByLength(text, start)))
    ensures t.chunkOverlap == 0 ==> text[start..] == Flatten(t.ByLength(text, start))
    decreases |text| - start
  {
    hide Floor, IsBoundary, Subsequence, TextSplitter.WindowEnd;
    if start == |text| {
      SubsequenceOfItself(text[start..]);
    } else {
      var next, end := t.NextStart(text, start), t.WindowEnd(text, start);
      ByLengthKeepsText(t, text, next);
      OverlappingStep(text, start, next, end, Flatten(t.ByLength(text, next)));
      assert text[start..end] + text[end..] == text[start..];
    }
  }

  /** What the loop over the pieces holds: the finished chunks, then the one being built. */
  function Held(p: Progress): Text {
    Flatten(p.chunks) + p.current
  }

  lemma GlueKeepsText(t: TextSplitter, current: Text, separator: Text, piece: Text, dropped: set<byte>)
    requires forall b :: b in separator ==> b in dropped
    ensures Without(t.Glue(current, separator, piece), dropped) == Without(current, dropped) + Without(piece, dropped)
  {
    hide Without;
    if current == [] {
      WithoutAll(current, dropped);
    } else {
      WithoutConcat(current, separator, dropped);
      WithoutConcat(current + separator, piece, dropped);
      WithoutAll(separator, dropped);
    }
  }

  /** Flushing moves the chunk being built to the finished ones; only an overlap is repeated. */
  lemma FlushKeepsText(t: TextSplitter, p: Progress)
    ensures Flatten(t.Flush(p).chunks) == Held(p)
    ensures t.chunkOverlap == 0 ==> t.Flush(p).current == []
  {
    FlattenAppend(p.chunks, p.current);
  }

  /** One more piece, with a repeated `tail` before it, or nothing before it if there is no overlap. */
  lemma SurvivesMore(t: TextSplitter, text: Text, held: Text, piece: Text, tail: Text, more: Text, after: Text,
                     dropped: set<byte>)
    requires Survives(t, text, held, dropped) && Survives(t, piece, more, dropped)
    requires t.chunkOverlap == 0 ==> tail == [] && after == []
    ensures Survives(t, text + piece, held + tail + more + after, dropped)
  {
    hide Without, Subsequence;
    WithoutConcat(text, piece, dropped);
    WithoutConcat(held, tail, dropped);
    WithoutConcat(held + tail, more, dropped);
    WithoutConcat(held + tail + more, after, dropped);
    var a, b := Without(text, dropped), Without(piece, dropped);
    var c, d := Without(held, dropped), Without(more, dropped);
    var u, v := Without(tail, dropped), Without(after, dropped);
    SubsequencePadded(a, [], c, u);
    assert [] + c + u == c + u;
    SubsequenceConcat(a, c + u, b, d);
    SubsequencePadded(a + b, [], c + u + d, v);
    assert [] + (c + u + d) + v == c + u + d + v;
    if t.chunkOverlap == 0 {
      WithoutAll(tail, dropped);
      WithoutAll(after, dropped);
    }
  }

  lemma SurvivesItself(t: TextSplitter, text: Text, dropped: set<byte>)
    ensures Survives(t, text, text, dropped)
  {
    SubsequenceOfItself(Without(text, dropped));
  }

  /** Gluing a piece on, with a separator or without, is as good as appending it. */
  lemma SurvivesGlued(t: TextSplitter, text: Text, held: Text, tail: Text, separator: Text, piece: Text,
                      dropped: set<byte>)
    requires Survives(t, text, held, dropped) && (forall b :: b in separator ==> b in dropped)
    requires t.chunkOverlap == 0 ==> tail == []
    ensures Survives(t, text + piece, held + t.Glue(tail, separator, piece), dropped)
  {
    hide Without, Subsequence, TextSplitter.Glue;
    SurvivesItself(t, piece, dropped);
    SurvivesMore(t, text, held, piece, tail, piece, [], dropped);
    assert held + tail + piece + [] == held + (tail + piece);
    WithoutConcat(tail, piece, dropped);
    WithoutConcat(held, tail + piece, dropped);
    GlueKeepsText(t, tail, separator, piece, dropped);
    WithoutConcat(held, t.Glue(tail, separator, piece), dropped);
  }

  lemma {:induction false} AbsorbKeepsText(t: TextSplitter, text: Text, p: Progress, separators: seq<Text>,
                                           piece: Text, dropped: set<byte>)
    requires separators != [] && AllFrom(separators, dropped)
    requires |piece| > t.chunkSize ==> t.Halts(piece, separators[1..])
    requires Survives(t, text, Held(p), dropped)
    ensures Survives(t, text + piece, Held(t.Absorb(p, separators, piece)), dropped)
    decreases |separators|, 0, 0
  {
    hide Survives, TextSplitter.Flush, TextSplitter.Halts, TextSplitter.Glue;
    assert separators[0] in separators;
    var flushed := t.Flush(p);
    FlushKeepsText(t, p);
    if |t.Glue(p.current, separators[0], piece)| <= t.chunkSize {
      AppendedPieceSurvives(t, text, p, separators[0], piece, dropped);
    } else if |piece| > t.chunkSize {
      var sub := t.Chunks(piece, separators[1..]);
      ChunksKeepText(t, piece, separators[1..], dropped);
      SurvivesMore(t, text, Held(p), piece, [], Flatten(sub), flushed.current, dropped);
      FlattenConcat(flushed.chunks, sub);
      assert Held(p) + [] + Flatten(sub) + flushed.current == Flatten(flushed.chunks + sub) + flushed.current;
    } else {
      SurvivesGlued(t, text, Held(p), flushed.current, separators[0], piece, dropped);
    }
  }

  lemma AppendedPieceSurvives(t: TextSplitter, text: Text, p: Progress, separator: Text, piece: Text,
                              dropped: set<byte>)
    requires Survives(t, text, Held(p), dropped) && (forall b :: b in separator ==> b in dropped)
    ensures Survives(t, text + piece, Flatten(p.chunks) + t.Glue(p.current, separator, piece), dropped)
  {
    hide Without, Subsequence, TextSplitter.Glue;
    SurvivesItself(t, piece, dropped);
    SurvivesMore(t, text, Held(p), piece, [], piece, [], dropped);
    var done := Flatten(p.chunks);
    assert Held(p) + [] + piece + [] == done + (p.current + piece);
    WithoutConcat(p.current, piece, dropped);
    WithoutConcat(done, p.current + piece, dropped);
    GlueKeepsText(t, p.current, separator, piece, dropped);
    WithoutConcat(done, t.Glue(p.current, separator, piece), dropped);
  }

  lemma {:induction false} AbsorbAllKeepsText(t: TextSplitter, pieces: seq<Text>, separators: seq<Text>,
                                              dropped: set<byte>)
    requires separators != [] && AllFrom(separators, dropped)
    requires forall piece :: piece in pieces && |piece| > t.chunkSize ==> t.Halts(piece, separators[1..])
    ensures Survives(t, Flatten(pieces), Held(t.AbsorbAll(pieces, separators)), dropped)
    decreases |separators|, 0, |pieces| + 1
  {
    hide Survives, TextSplitter.Absorb, TextSplitter.Halts;
    if pieces == [] {
      assert Held(Progress([], [])) == [] && Flatten(pieces) == [];
      SurvivesItself(t, [], dropped);
    } else {
      var n := |pieces| - 1;
      AbsorbAllKeepsText(t, pieces[..n], separators, dropped);
      AbsorbKeepsText(t, Flatten(pieces[..n]), t.AbsorbAll(pieces[..n], separators), separators, pieces[n], dropped);
      FlattenAppend(pieces[..n], pieces[n]);
      assert pieces[..n] + [pieces[n]] == pieces;
    }
  }

  lemma {:induction false} JoinIsFlatten(pieces: seq<Text>, separator: Text, dropped: set<byte>)
    requires forall b :: b in separator ==> b in dropped
    ensures Without(Join(pieces, separator), dropped) == Without(Flatten(pieces), dropped)
  {
    hide Without;
    if |pieces| == 1 {
      FlattenOne(pieces[0]);
      assert pieces == [pieces[0]];
    } else if |pieces| > 1 {
      var n := |pieces| - 1;
      JoinIsFlatten(pieces[..n], separator, dropped);
      WithoutConcat(Join(pieces[..n], separator), separator, dropped);
      WithoutConcat(Join(pieces[..n], separator) + separator, pieces[n], dropped);
      WithoutAll(separator, dropped);
      FlattenAppend(pieces[..n], pieces[n]);
      assert pieces[..n] + [pieces[n]] == pieces;
      WithoutConcat(Flatten(pieces[..n]), pieces[n], dropped);
    }
  }

  /** No text is lost: whatever is not in a separator is in the chunks, in order, and without overlap
      it is there exactly once. */
  lemma {:induction false} ChunksKeepText(t: TextSplitter, text: Text, separators: seq<Text>, dropped: set<byte>)
    requires t.Halts(text, separators) && AllFrom(separators, dropped)
    ensures Survives(t, text, Flatten(t.Chunks(text, separators)), dropped)
    decreases |separators|, 1, 0
  {
    hide Without, Subsequence, TextSplitter.AbsorbAll;
    if separators == [] || separators[0] == [] {
      ByLengthKeepsText(t, text, 0);
      assert text[0..] == text;
      WithoutSubsequence(text, Flatten(t.ByLength(text, 0)), dropped);
    } else {
      assert separators[0] in separators;
      var pieces := Split(text, separators[0]);
      AbsorbAllKeepsText(t, pieces, separators, dropped);
      SplitThenJoin(text, separators[0]);
      JoinIsFlatten(pieces, separators[0], dropped);
      var done := t.AbsorbAll(pieces, separators);
      FlattenAppend(done.chunks, done.current);
      assert done.current == [] ==> Held(done) == Flatten(done.chunks);
    }
  }

  // ---- The whole splitter, with the default separators ----

  /** Newlines and spaces aside, no text is lost; and without overlap nothing is repeated. */
  lemma SplitterKeepsText(t: TextSplitter, text: Text)
    requires t.separators == DefaultSeparators() && t.CanSplit(text)
    ensures Subsequence(Without(text, BLANK), Without(Flatten(t.ChunksOf(text)), BLANK))
    ensures t.chunkOverlap == 0 ==> Without(text, BLANK) == Without(Flatten(t.ChunksOf(text)), BLANK)
  {
    hide Without, Subsequence, TextSplitter.Halts, TextSplitter.Chunks;
    DefaultSeparatorsAreBlank();
    if |text| <= t.chunkSize {
      SubsequenceOfItself(Without(text, BLANK));
      FlattenOne(text);
    } else {
      ChunksKeepText(t, text, t.separators, BLANK);
    }
  }

  /** A text longer than a chunk is split into non-empty chunks of whole characters, each at most the
      chunk size without overlap, and at most an overlap and a blank line more with it. */
  lemma SplitterBoundsChunks(t: TextSplitter, text: Text, ascii: bool)
    requires t.separators == DefaultSeparators() && Whole(text, ascii) && |text| > t.chunkSize && t.CanSplit(text)
    ensures SoundChunks(t, t.ChunksOf(text), 2, ascii)
  {
    hide WellFormed, TextSplitter.Halts, TextSplitter.Chunks;
    DefaultSeparatorsAreBlank();
    ChunksAreSound(t, text, t.separators, 2, ascii);
  }
}
