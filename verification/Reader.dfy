/** How a text is cut into lines: what the cut keeps, and why a buffer that grows sees the same lines
  * as one that has its full size from the start. */
module Reader {
  import opened Text
  import opened Ini

  function Concat(lines: seq<string>): string {
    if lines == [] then "" else lines[0] + Concat(lines[1..])
  }

  /** A line ends at its only newline, or where the buffer is full, or at the end of the text. */
  predicate IsLine(line: string, max: int, last: bool) {
    && 1 <= |line| <= max - 1
    && (forall k :: 0 <= k < |line| - 1 ==> line[k] != NEWLINE)
    && (line[|line| - 1] == NEWLINE || |line| == max - 1 || last)
  }

  /** The lines of a text are its maximal pieces, in order and without loss. */
  lemma {:induction false} ChunksSpec(text: string, max: int)
    requires max >= 2
    ensures var lines := Chunks(text, max);
            && Concat(lines) == text
            && forall i :: 0 <= i < |lines| ==> IsLine(lines[i], max, i == |lines| - 1)
    decreases |text|
  {
    if text != "" {
      var n, lines := ChunkLen(text, max), Chunks(text, max);
      ChunkLenSpec(text, max);
      ChunksSpec(text[n..], max);
      assert lines[1..] == Chunks(text[n..], max);
      assert text == text[..n] + text[n..];
      forall i | 0 <= i < |lines| ensures IsLine(lines[i], max, i == |lines| - 1) {
        if i > 0 { assert lines[i] == lines[1..][i - 1]; }
      }
    }
  }

  /** No other way of cutting the text has these properties. */
  lemma {:induction false} ChunksUnique(lines: seq<string>, max: int)
    requires max >= 2
    requires forall i :: 0 <= i < |lines| ==> IsLine(lines[i], max, i == |lines| - 1)
    ensures Chunks(Concat(lines), max) == lines
  {
    if lines != [] {
      var text, rest := Concat(lines), lines[1..];
      var n := |lines[0]|;
      assert IsLine(lines[0], max, 0 == |lines| - 1);
      assert forall k :: 0 <= k < n ==> text[k] == lines[0][k];
      if rest == [] { assert Concat(rest) == ""; }
      ChunkLenIs(text, max, n);
      assert text[..n] == lines[0] && text[n..] == Concat(rest);
      forall i | 0 <= i < |rest| ensures IsLine(rest[i], max, i == |rest| - 1) {
        assert rest[i] == lines[i + 1];
      }
      ChunksUnique(rest, max);
    }
  }

  /** A full buffer is continued by the next read exactly as a larger buffer would be. */
  lemma {:induction false} ChunkLenExtends(text: string, small: int, large: int)
    requires text != "" && 2 <= small <= large - 1
    requires var n := ChunkLen(text, small); n == small - 1 && text[n - 1] != NEWLINE
    ensures var n := ChunkLen(text, small);
            ChunkLen(text, large)
            == if n == |text| then n else n + ChunkLen(text[n..], large - n)
  {
    var n := ChunkLen(text, small);
    ChunkLenSpec(text, small);
    if n == |text| {
      ChunkLenIs(text, large, n);
    } else {
      var rest := text[n..];
      var m := ChunkLen(rest, large - n);
      ChunkLenSpec(rest, large - n);
      forall k | 0 <= k < n + m - 1 ensures text[k] != NEWLINE {
        if k >= n { assert text[k] == rest[k - n]; }
      }
      ChunkLenIs(text, large, n + m);
    }
  }

  /** The other lines already fit, and a larger buffer cuts them at the same place. */
  lemma {:induction false} ChunkLenFits(text: string, small: int, large: int)
    requires text != "" && 2 <= small <= large
    requires var n := ChunkLen(text, small); n < small - 1 || text[n - 1] == NEWLINE
    ensures ChunkLen(text, large) == ChunkLen(text, small)
  {
    ChunkLenSpec(text, small);
    ChunkLenIs(text, large, ChunkLen(text, small));
  }

  lemma {:induction false} GrowUnfolds(rest: string, offset: nat, size: int, maxLine: int, max: int)
    requires 1 <= offset <= |rest| && offset == size - 1 && size <= maxLine && rest[offset - 1] != NEWLINE
    requires max == if 2 * size > maxLine then maxLine else 2 * size
    ensures size <= max && (max < maxLine ==> max > size)
    ensures offset == |rest| || max - offset < 2 ==> Grow(rest, offset, size, maxLine) == (offset, max)
    ensures offset < |rest| && max - offset >= 2 ==>
              var n := ChunkLen(rest[offset..], max - offset);
              && max > size
              && Grow(rest, offset, size, maxLine)
                 == if max >= maxLine then (offset + n, max) else Grow(rest, offset + n, max, maxLine)
  {
  }

  /** One round of the doubling loop, without the loop: what is read behind a full buffer. */
  lemma {:induction false} RoundLen(text: string, max: int, max': int)
    requires text != "" && 2 <= max <= max'
    requires var n := ChunkLen(text, max); n == max - 1 && text[n - 1] != NEWLINE
    ensures var n := ChunkLen(text, max);
            ChunkLen(text, max')
            == if n == |text| || max' - n < 2 then n else n + ChunkLen(text[n..], max' - n)
  {
    if max < max' { ChunkLenExtends(text, max, max'); }
  }

  /** The doubling loop assembles exactly the line that a buffer of `maxLine` bytes would hold. */
  lemma {:induction false} GrowIsChunk(text: string, offset: nat, max: int, maxLine: int)
    requires text != "" && 2 <= max <= maxLine && offset == ChunkLen(text, max)
    ensures Grow(text, offset, max, maxLine).0 == ChunkLen(text, maxLine)
    decreases maxLine - max
  {
    if offset == max - 1 && text[offset - 1] != NEWLINE {
      var max' := if 2 * max > maxLine then maxLine else 2 * max;
      GrowUnfolds(text, offset, max, maxLine, max');
      RoundLen(text, max, max');
      if offset == |text| {
        RoundLen(text, max, maxLine);
      } else if max' < maxLine {
        GrowIsChunk(text, ChunkLen(text, max'), max', maxLine);
      }
    } else {
      ChunkLenFits(text, max, maxLine);
    }
  }

  /** Although the size the buffer has grown to persists from line to line, a growing buffer sees the
    * lines of a fixed one. */
  lemma {:induction false} GrowingSeesTheSameLines(text: string, max: int, maxLine: int)
    requires 2 <= max <= maxLine
    ensures GrowLines(text, max, maxLine) == Chunks(text, maxLine)
    decreases |text|
  {
    if text != "" {
      var n := ChunkLen(text, max);
      GrowIsChunk(text, n, max, maxLine);
      var (m, max') := Grow(text, n, max, maxLine);
      GrowingSeesTheSameLines(text[m..], max', maxLine);
    }
  }

  /** Every configuration sees the lines of a fixed buffer of its capacity. */
  lemma {:induction false} LinesAreChunks(cfg: Config, text: string)
    requires cfg.Valid()
    ensures Lines(cfg, text) == Chunks(text, cfg.Capacity())
  {
    if cfg.Growing() && cfg.initialAlloc >= 2 {
      GrowingSeesTheSameLines(text, cfg.initialAlloc, cfg.maxLine);
    }
  }

  /** Growing the buffer changes neither the handler calls nor the result of a whole parse. */
  lemma {:induction false} GrowingAgreesWithFixed(cfg: Config, h: Handler, text: string)
    requires cfg.Valid() && cfg.Growing() && cfg.initialAlloc >= 2
    ensures Parse(cfg, h, text) == Parse(cfg.(useStack := true), h, text)
  {
    LinesAreChunks(cfg, text);
    LinesAreChunks(cfg.(useStack := true), text);
  }
}
