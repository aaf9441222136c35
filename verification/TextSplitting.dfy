/** Splitting documents into chunks: recursion over separators with overlap carry-over, and the
    byte-window splitter it falls back on. */
module TextSplitting {
  import opened Utf8

  /** A Rust string, as its bytes. */
  type Text = seq<byte>

  /** Chunks collected so far, and the chunk being built. */
  datatype Progress = Progress(chunks: seq<Text>, current: Text)

  /** A half-open range of byte positions. */
  datatype Span = Span(start: nat, end: nat)

  function Min(a: nat, b: nat): nat {
    if a <= b then a else b
  }

  // ---- Rust's `str::split` ----

  /** The leftmost place at or after `from` where `pattern` occurs; |s| + 1 if there is none. */
  function Find(s: seq<byte>, pattern: seq<byte>, from: nat): (i: nat)
    requires from <= |s| + 1
    ensures from <= i <= |s| + 1
    ensures i <= |s| ==> MatchesAt(s, pattern, i)
    ensures forall j :: from <= j < i ==> !MatchesAt(s, pattern, j)
    decreases |s| + 1 - from
  {
    if from > |s| || MatchesAt(s, pattern, from) then from else Find(s, pattern, from + 1)
  }

  /** The parts of `text` between leftmost, non-overlapping occurrences of `separator`. */
  function Split(text: Text, separator: Text): (pieces: seq<Text>)
    requires separator != []
    ensures pieces != []
    decreases |text|
  {
    var i := Find(text, separator, 0);
    if i > |text| then [text]
    else
      [text[..i]] + Split(text[i + |separator|..], separator)
  }

  function Join(pieces: seq<Text>, separator: Text): seq<byte> {
    if pieces == [] then []
    else if |pieces| == 1 then pieces[0]
    else Join(pieces[..|pieces| - 1], separator) + separator + pieces[|pieces| - 1]
  }

  lemma {:induction false} JoinCons(first: Text, rest: seq<Text>, separator: Text)
    requires rest != []
    ensures Join([first] + rest, separator) == first + separator + Join(rest, separator)
  {
    var all := [first] + rest;
    var last := |rest| - 1;
    assert all[..|all| - 1] == [first] + rest[..last];
    if |rest| > 1 {
      JoinCons(first, rest[..last], separator);
    }
  }

  predicate Free(s: seq<byte>, pattern: seq<byte>) {
    forall j :: 0 <= j <= |s| ==> !MatchesAt(s, pattern, j)
  }

  /** What lies before the leftmost occurrence holds no occurrence. */
  lemma FreeBeforeFind(s: seq<byte>, pattern: seq<byte>)
    requires pattern != [] && Find(s, pattern, 0) <= |s|
    ensures Free(s[..Find(s, pattern, 0)], pattern)
  {
    var i := Find(s, pattern, 0);
    forall j | 0 <= j <= i
      ensures !MatchesAt(s[..i], pattern, j)
    {
      if MatchesAt(s[..i], pattern, j) {
        assert MatchesAt(s, pattern, j);
      }
    }
  }

  lemma SplitUnfold(text: Text, separator: Text)
    requires separator != []
    ensures var i := Find(text, separator, 0);
            Split(text, separator)
                == if i > |text| then [text] else [text[..i]] + Split(text[i + |separator|..], separator)
  {
  }

  lemma FreeIfNotFound(s: seq<byte>, pattern: seq<byte>)
    requires Find(s, pattern, 0) > |s|
    ensures Free(s, pattern)
  {
  }

  /** Splitting loses nothing but the separators. */
  lemma {:induction false} SplitThenJoin(text: Text, separator: Text)
    requires separator != []
    ensures Join(Split(text, separator), separator) == text
    decreases |text|
  {
    hide Find, Split;
    SplitUnfold(text, separator);
    var i := Find(text, separator, 0);
    if i <= |text| {
      var rest := text[i + |separator|..];
      SplitThenJoin(rest, separator);
      JoinCons(text[..i], Split(rest, separator), separator);
    }
  }

  /** No piece is longer than the text, and none still holds a separator. */
  lemma {:induction false} PiecesAreFree(text: Text, separator: Text)
    requires separator != []
    ensures forall piece :: piece in Split(text, separator) ==> |piece| <= |text| && Free(piece, separator)
    decreases |text|
  {
    hide Find, Free, Split;
    SplitUnfold(text, separator);
    var i := Find(text, separator, 0);
    if i <= |text| {
      PiecesAreFree(text[i + |separator|..], separator);
      FreeBeforeFind(text, separator);
    } else {
      FreeIfNotFound(text, separator);
    }
  }

  datatype TextSplitter = TextSplitter(chunkSize: nat, chunkOverlap: nat, separators: seq<Text>) {

    // ---- The byte-window splitter ----

    /** Where the window that starts at `start` ends: a boundary at most `chunkSize` bytes on. */
    function WindowEnd(text: Text, start: nat): (end: nat)
      requires start < |text| && IsBoundary(text, start)
      ensures start <= end <= |text| && end <= start + chunkSize && IsBoundary(text, end)
    {
      var limit := Min(start + chunkSize, |text|);
      FloorIsGreatest(text, limit, start);
      Floor(text, limit)
    }

    /** Where the next window starts: the overlap is stepped back over, to a boundary. */
    function NextStart(text: Text, start: nat): (next: nat)
      requires start < |text| && IsBoundary(text, start)
      ensures start <= next <= WindowEnd(text, start) && IsBoundary(text, next)
    {
      var end := WindowEnd(text, start);
      if chunkOverlap > 0 && end < |text| then
        var back := end - Min(chunkOverlap, end - start);
        FloorIsGreatest(text, back, start);
        Floor(text, back)
      else
        end
    }

    /** Every window started from `start` on lies strictly before the next one. */
    predicate Progresses(text: Text, start: nat)
      requires start <= |text| && IsBoundary(text, start)
      decreases |text| - start
    {
      start == |text| || (start < NextStart(text, start) && Progresses(text, NextStart(text, start)))
    }

    /** The loop's `start` after `rounds` rounds. */
    function StartAfter(text: Text, start: nat, rounds: nat): (s: nat)
      requires start <= |text| && IsBoundary(text, start)
      ensures s <= |text| && IsBoundary(text, s)
      decreases rounds
    {
      if rounds == 0 || start == |text| then start
      else StartAfter(text, NextStart(text, start), rounds - 1)
    }

    /** The windows, from `start` to the end of the text. */
    function Windows(text: Text, start: nat): (spans: seq<Span>)
      requires start <= |text| && IsBoundary(text, start) && Progresses(text, start)
      decreases |text| - start
    {
      if start == |text| then []
      else [Span(start, WindowEnd(text, start))] + Windows(text, NextStart(text, start))
    }

    function ByLength(text: Text, start: nat): (chunks: seq<Text>)
      requires start <= |text| && IsBoundary(text, start) && Progresses(text, start)
      decreases |text| - start
    {
      if start == |text| then []
      else [text[start..WindowEnd(text, start)]] + ByLength(text, NextStart(text, start))
    }

    /** One round of the window loop: where this window ends and the next one starts. */
    method NextWindow(text: Text, start: nat) returns (end: nat, next: nat)
      requires start < |text| && IsBoundary(text, start)
      ensures end == WindowEnd(text, start) && next == NextStart(text, start)
    {
      end := RetreatToBoundary(text, Min(start + chunkSize, |text|), start);
      if chunkOverlap > 0 && end < |text| {
        next := RetreatToBoundary(text, end - Min(chunkOverlap, end - start), start);
      } else {
        next := end;
      }
    }

    /** The byte-window splitter, on exactly the texts on which its loop ends. */
    method SplitByLength(text: Text) returns (chunks: seq<Text>)
      requires Progresses(text, 0)
      ensures chunks == ByLength(text, 0)
    {
      hide Floor, WindowEnd, NextStart;
      chunks := [];
      var start := 0;
      while start < |text|
        invariant start <= |text| && IsBoundary(text, start) && Progresses(text, start)
        invariant chunks + ByLength(text, start) == ByLength(text, 0)
        decreases |text| - start
      {
        var end, next := NextWindow(text, start);
        assert chunks + ByLength(text, start) == chunks + [text[start..end]] + ByLength(text, next);
        chunks := chunks + [text[start..end]];
        start := next;
      }
    }

    // ---- The recursive splitter ----

    /** Exactly the inputs on which the recursive splitter ends: every piece that reaches the
        byte-window splitter is one on which its loop ends. */
    predicate Halts(text: Text, separators: seq<Text>)
      decreases |separators|
    {
      if separators == [] || separators[0] == [] then Progresses(text, 0)
      else forall piece :: piece in Split(text, separators[0]) && |piece| > chunkSize ==> Halts(piece, separators[1..])
    }

    function Glue(current: Text, separator: Text, piece: Text): Text {
      if current == [] then piece
      else current + separator + piece
    }

    /** The end of a finished chunk, carried into the next one. */
    function OverlapTail(current: Text): (tail: Text)
    {
      if chunkOverlap > 0 && |current| > chunkOverlap then
        current[Floor(current, |current| - chunkOverlap)..]
      else []
    }

    function Flush(progress: Progress): Progress {
      if progress.current == [] then progress
      else Progress(progress.chunks + [progress.current], OverlapTail(progress.current))
    }

    function Absorb(progress: Progress, separators: seq<Text>, piece: Text): Progress
      requires separators != [] && (|piece| > chunkSize ==> Halts(piece, separators[1..]))
      decreases |separators|, 0, 0
    {
      var potential := Glue(progress.current, separators[0], piece);
      if |potential| <= chunkSize then progress.(current := potential)
      else
        var flushed := Flush(progress);
        if |piece| > chunkSize then flushed.(chunks := flushed.chunks + Chunks(piece, separators[1..]))
        else flushed.(current := Glue(flushed.current, separators[0], piece))
    }

    function AbsorbAll(pieces: seq<Text>, separators: seq<Text>): Progress
      requires separators != []
      requires forall piece :: piece in pieces && |piece| > chunkSize ==> Halts(piece, separators[1..])
      decreases |separators|, 0, |pieces| + 1
    {
      if pieces == [] then Progress([], [])
      else Absorb(AbsorbAll(pieces[..|pieces| - 1], separators), separators, pieces[|pieces| - 1])
    }

    function Chunks(text: Text, separators: seq<Text>): seq<Text>
      requires Halts(text, separators)
      decreases |separators|, 1, 0
    {
      if separators == [] || separators[0] == [] then ByLength(text, 0)
      else
        var done := AbsorbAll(Split(text, separators[0]), separators);
        if done.current == [] then done.chunks else done.chunks + [done.current]
    }

    /** One round of the loop over the pieces. */
    method AbsorbPiece(chunks: seq<Text>, current: Text, separators: seq<Text>, split: Text)
      returns (chunks': seq<Text>, current': Text)
      requires separators != [] && (|split| > chunkSize ==> Halts(split, separators[1..]))
      ensures Progress(chunks', current') == Absorb(Progress(chunks, current), separators, split)
      decreases |separators|, 0
    {
      chunks', current' := chunks, current;
      var potential := Glue(current', separators[0], split);
      if |potential| <= chunkSize {
        current' := potential;
        return;
      }
      if current' != [] {
        chunks' := chunks' + [current'];
        if chunkOverlap > 0 && |current'| > chunkOverlap {
          var overlapStart := RetreatToBoundary(current', |current'| - chunkOverlap, 0);
          current' := current'[overlapStart..];
        } else {
          current' := [];
        }
      }
      assert Progress(chunks', current') == Flush(Progress(chunks, current));
      if |split| > chunkSize {
        var subChunks := RecursiveSplit(split, separators[1..]);
        chunks' := chunks' + subChunks;
      } else {
        current' := Glue(current', separators[0], split);
      }
    }

    method RecursiveSplit(text: Text, separators: seq<Text>) returns (chunks: seq<Text>)
      requires Halts(text, separators)
      ensures chunks == Chunks(text, separators)
      decreases |separators|, 1
    {
      hide Floor, IsBoundary, Absorb, Find, ByLength;
      if separators == [] || separators[0] == [] {
        chunks := SplitByLength(text);
        return;
      }
      var splits := Split(text, separators[0]);
      chunks := [];
      var current: Text := [];
      for i := 0 to |splits|
        invariant Progress(chunks, current) == AbsorbAll(splits[..i], separators)
      {
        assert splits[..i + 1][..i] == splits[..i];
        chunks, current := AbsorbPiece(chunks, current, separators, splits[i]);
      }
      assert splits[..|splits|] == splits;
      if current != [] {
        chunks := chunks + [current];
      }
    }

    /** A text no longer than a chunk is left whole, whatever the separators. */
    predicate CanSplit(text: Text) {
      |text| > chunkSize ==> Halts(text, separators)
    }

    function ChunksOf(text: Text): seq<Text>
      requires CanSplit(text)
    {
      if |text| <= chunkSize then [text] else Chunks(text, separators)
    }

    /** Split a text into chunks. */
    method SplitText(text: Text) returns (chunks: seq<Text>)
      requires CanSplit(text)
      ensures chunks == ChunksOf(text)
    {
      if |text| <= chunkSize {
        chunks := [text];
      } else {
        chunks := RecursiveSplit(text, separators);
      }
    }
  }

  /** The separators of a splitter that is given none: blank lines, lines, words, then bytes. */
  function DefaultSeparators(): seq<Text> {
    [[0x0A, 0x0A], [0x0A], [0x20], []]
  }
}
