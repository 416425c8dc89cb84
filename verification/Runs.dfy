/** Laws of whole parses: resuming, inserting comments, stopping early, and the byte-order mark. */
module Runs {
  import opened Text
  import opened Ini
  import opened Reader

  /** Parsing `text` from a state that an earlier part of the input has left behind. */
  function ParseFrom(cfg: Config, h: Handler, st: State, text: string): State
    requires cfg.Valid()
  {
    Run(cfg.syntax, cfg.stopOnFirstError, h, st, Chunks(text, cfg.Capacity()))
  }

  predicate WholeLines(text: string) {
    text == "" || text[|text| - 1] == NEWLINE
  }

  // ---- Resuming

  lemma {:induction false} RunAppend(syn: Syntax, stop: bool, h: Handler, st: State, xs: seq<string>, ys: seq<string>)
    ensures Run(syn, stop, h, st, xs + ys) == Run(syn, stop, h, Run(syn, stop, h, st, xs), ys)
    decreases |xs|
  {
    if xs == [] {
      assert xs + ys == ys;
    } else if !Stopped(stop, st) {
      assert (xs + ys)[1..] == xs[1..] + ys;
      RunAppend(syn, stop, h, Step(syn, h, st, xs[0]), xs[1..], ys);
    }
  }

  /** Cutting distributes over a concatenation at a line boundary. */
  lemma {:induction false} ChunksAppend(a: string, b: string, max: int)
    requires WholeLines(a)
    ensures Chunks(a + b, max) == Chunks(a, max) + Chunks(b, max)
    decreases |a|
  {
    if a == "" {
      assert a + b == b;
    } else if max >= 2 {
      var n := ChunkLen(a, max);
      FirstOfAppend(a, b, max);
      ChunksAppend(a[n..], b, max);
      ConsAppend(a[..n], Chunks(a[n..], max), Chunks(b, max));
    }
  }

  lemma {:induction false} ConsAppend(x: string, ys: seq<string>, zs: seq<string>)
    ensures [x] + ys + zs == [x] + (ys + zs)
  {
  }

  lemma {:induction false} FirstOfAppend(a: string, b: string, max: int)
    requires a != "" && WholeLines(a) && max >= 2
    ensures var n := ChunkLen(a, max);
            && ChunkLen(a + b, max) == n && WholeLines(a[n..])
            && (a + b)[..n] == a[..n] && (a + b)[n..] == a[n..] + b
  {
    var n := ChunkLen(a, max);
    ChunkLenSpec(a, max);
    ChunkLenIs(a + b, max, n);
  }

  /** Parsing a text in two parts, the second from where the first has stopped. */
  lemma {:induction false} ParseInTwoParts(cfg: Config, h: Handler, a: string, b: string)
    requires cfg.Valid() && WholeLines(a)
    ensures Parse(cfg, h, a + b) == ParseFrom(cfg, h, Parse(cfg, h, a), b)
  {
    var max := cfg.Capacity();
    LinesAreChunks(cfg, a);
    LinesAreChunks(cfg, a + b);
    ChunksAppend(a, b, max);
    RunAppend(cfg.syntax, cfg.stopOnFirstError, h, INITIAL, Chunks(a, max), Chunks(b, max));
  }

  // ---- Inserting a comment line

  /** What one more line in front does to the numbers: `n` lines came before it. */
  function Shift(st: State, n: nat): State {
    st.(lineno := st.lineno + 1, error := if st.error > n then st.error + 1 else st.error)
  }

  lemma {:induction false} ApplyShift(syn: Syntax, h: Handler, st: State, n: nat, line: Line)
    requires n < st.lineno
    ensures Apply(syn, h, Shift(st, n), line) == Shift(Apply(syn, h, st, line), n)
  {
  }

  lemma {:induction false} LineShift(syn: Syntax, st: State, n: nat, chunk: string)
    requires st.lineno > 0 || !(syn.allowBom && BOM <= chunk)
    ensures LineOf(syn, Shift(st, n), chunk) == LineOf(syn, st, chunk)
  {
  }

  lemma {:induction false} RunShift(syn: Syntax, stop: bool, h: Handler, st: State, n: nat, lines: seq<string>)
    requires n <= st.lineno
    requires st.lineno > 0 || lines == [] || !(syn.allowBom && BOM <= lines[0])
    ensures Run(syn, stop, h, Shift(st, n), lines) == Shift(Run(syn, stop, h, st, lines), n)
    decreases |lines|
  {
    if lines != [] && !Stopped(stop, st) {
      LineShift(syn, st, n, lines[0]);
      ApplyShift(syn, h, st.(lineno := st.lineno + 1), n, LineOf(syn, st, lines[0]));
      StepCounts(syn, h, st, lines[0]);
      RunShift(syn, stop, h, Step(syn, h, st, lines[0]), n, lines[1..]);
    }
  }

  lemma {:induction false} RunCounts(syn: Syntax, stop: bool, h: Handler, st: State, lines: seq<string>)
    requires st.error <= st.lineno
    ensures var end := Run(syn, stop, h, st, lines);
            && end.error <= end.lineno <= st.lineno + |lines|
            && (!Stopped(stop, end) ==> end.lineno == st.lineno + |lines|)
    decreases |lines|
  {
    if lines != [] && !Stopped(stop, st) {
      StepCounts(syn, h, st, lines[0]);
      RunCounts(syn, stop, h, Step(syn, h, st, lines[0]), lines[1..]);
    }
  }

  /** A blank or comment line that fits the buffer. */
  predicate IsCommentLine(cfg: Config, c: string) {
    && c != "" && IsLine(c, cfg.Capacity(), false) && c[|c| - 1] == NEWLINE
    && IsComment(cfg.syntax, Trim(c))
  }

  /** A comment line may be inserted between any two lines (only a byte-order mark has to stay in
    * front): the handler sees the same calls, an open continuation stays open, and the number of an
    * error behind the new line grows by one. */
  lemma {:induction false} CommentInsertion(cfg: Config, h: Handler, a: string, c: string, b: string)
    requires cfg.Valid() && WholeLines(a) && IsCommentLine(cfg, c)
    requires a == "" && cfg.syntax.allowBom ==> !(BOM <= c) && !(BOM <= b)
    ensures var p, q, n := Parse(cfg, h, a + b), Parse(cfg, h, a + c + b), |Lines(cfg, a)|;
            && q.calls == p.calls && q.section == p.section && q.prevName == p.prevName
            && q.error == if p.error > n then p.error + 1 else p.error
  {
    var st, n := Parse(cfg, h, a), |Lines(cfg, a)|;
    ParseInTwoParts(cfg, h, a, b);
    Assoc(a, c, b);
    ParseInTwoParts(cfg, h, a, c + b);
    RunCounts(cfg.syntax, cfg.stopOnFirstError, h, INITIAL, Lines(cfg, a));
    if Stopped(cfg.stopOnFirstError, st) {
      StoppedStays(cfg.syntax, cfg.stopOnFirstError, h, st, Chunks(b, cfg.Capacity()));
      StoppedStays(cfg.syntax, cfg.stopOnFirstError, h, st, Chunks(c + b, cfg.Capacity()));
    } else {
      LinesAreChunks(cfg, a);
      NoLines(a, cfg.Capacity());
      CommentFirst(cfg, h, st, c, b);
    }
  }

  /** The same from any state: the comment in front of `b` only shifts the numbers. */
  lemma {:induction false} CommentFirst(cfg: Config, h: Handler, st: State, c: string, b: string)
    requires cfg.Valid() && IsCommentLine(cfg, c) && st.error <= st.lineno
    requires !Stopped(cfg.stopOnFirstError, st)
    requires st.lineno == 0 && cfg.syntax.allowBom ==> !(BOM <= c) && !(BOM <= b)
    ensures ParseFrom(cfg, h, st, c + b) == Shift(ParseFrom(cfg, h, st, b), st.lineno)
  {
    LineFirst(cfg, h, st, c, b);
    CommentStep(cfg.syntax, h, st, c);
    assert Shift(st, st.lineno) == st.(lineno := st.lineno + 1);
    FirstChunk(b, cfg.Capacity());
    RunShift(cfg.syntax, cfg.stopOnFirstError, h, st, st.lineno, Chunks(b, cfg.Capacity()));
  }

  /** A complete line in front of a text is one step. */
  lemma {:induction false} LineFirst(cfg: Config, h: Handler, st: State, line: string, b: string)
    requires cfg.Valid() && line != "" && IsLine(line, cfg.Capacity(), false) && line[|line| - 1] == NEWLINE
    requires !Stopped(cfg.stopOnFirstError, st)
    ensures ParseFrom(cfg, h, st, line + b) == ParseFrom(cfg, h, Step(cfg.syntax, h, st, line), b)
  {
    var max, stop := cfg.Capacity(), cfg.stopOnFirstError;
    ChunksAppend(line, b, max);
    OneLine(line, max);
    RunAppend(cfg.syntax, stop, h, st, [line], Chunks(b, max));
    OneStep(cfg.syntax, stop, h, st, line);
  }

  /** A line without newline that leaves room for one. */
  predicate FitsAsLine(cfg: Config, s: string) {
    NEWLINE !in s && |s| + 1 <= cfg.Capacity() - 1
  }

  /** Such a line in the middle of a text. */
  lemma {:induction false} ReadLine(cfg: Config, h: Handler, a: string, s: string, b: string)
    requires cfg.Valid() && WholeLines(a) && FitsAsLine(cfg, s)
    ensures var st := Parse(cfg, h, a);
            Parse(cfg, h, a + (s + "\n" + b))
            == if Stopped(cfg.stopOnFirstError, st) then st else ParseFrom(cfg, h, Step(cfg.syntax, h, st, s + "\n"), b)
  {
    var st := Parse(cfg, h, a);
    ParseInTwoParts(cfg, h, a, s + "\n" + b);
    if Stopped(cfg.stopOnFirstError, st) {
      StoppedStays(cfg.syntax, cfg.stopOnFirstError, h, st, Chunks(s + "\n" + b, cfg.Capacity()));
    } else {
      assert IsLine(s + "\n", cfg.Capacity(), false);
      LineFirst(cfg, h, st, s + "\n", b);
    }
  }

  lemma {:induction false} OneLine(c: string, max: int)
    requires c != "" && IsLine(c, max, false) && c[|c| - 1] == NEWLINE
    ensures Chunks(c, max) == [c]
  {
    ChunkLenIs(c, max, |c|);
    assert c[..|c|] == c && c[|c|..] == "";
  }

  lemma {:induction false} OneStep(syn: Syntax, stop: bool, h: Handler, st: State, c: string)
    requires !Stopped(stop, st)
    ensures Run(syn, stop, h, st, [c]) == Step(syn, h, st, c)
  {
  }

  lemma {:induction false} NoLines(a: string, max: int)
    requires max >= 2
    ensures |Chunks(a, max)| == 0 <==> a == ""
  {
  }

  lemma {:induction false} FirstChunk(b: string, max: int)
    ensures var lines := Chunks(b, max); lines == [] || lines[0] <= b
  {
  }

  lemma {:induction false} StoppedStays(syn: Syntax, stop: bool, h: Handler, st: State, lines: seq<string>)
    requires Stopped(stop, st)
    ensures Run(syn, stop, h, st, lines) == st
  {
  }

  lemma {:induction false} CommentStep(syn: Syntax, h: Handler, st: State, c: string)
    requires IsComment(syn, Trim(c))
    requires st.lineno == 0 && syn.allowBom ==> !(BOM <= c)
    ensures Step(syn, h, st, c) == st.(lineno := st.lineno + 1)
  {
    assert c[0..] == c;
    assert LineOf(syn, st, c) == Comment;
  }

  // ---- Stopping at the first error

  lemma {:induction false} CallsGrow(syn: Syntax, stop: bool, h: Handler, st: State, lines: seq<string>)
    ensures st.calls <= Run(syn, stop, h, st, lines).calls
    ensures st.error != 0 ==> Run(syn, stop, h, st, lines).error == st.error
    decreases |lines|
  {
    if lines != [] && !Stopped(stop, st) {
      StepCounts(syn, h, st, lines[0]);
      CallsGrow(syn, stop, h, Step(syn, h, st, lines[0]), lines[1..]);
    }
  }

  lemma {:induction false} StoppedRunIsPrefix(syn: Syntax, h: Handler, st: State, lines: seq<string>)
    ensures Run(syn, true, h, st, lines).calls <= Run(syn, false, h, st, lines).calls
    ensures Run(syn, true, h, st, lines).error == Run(syn, false, h, st, lines).error
    decreases |lines|
  {
    if st.error != 0 {
      CallsGrow(syn, false, h, st, lines);
    } else if lines != [] {
      StoppedRunIsPrefix(syn, h, Step(syn, h, st, lines[0]), lines[1..]);
    }
  }

  /** Stopping at the first error cuts the handler calls short and returns the same number, whatever
    * the handler does with the calls. */
  lemma {:induction false} StopOnFirstErrorTruncates(cfg: Config, h: Handler, text: string)
    requires cfg.Valid()
    ensures var on, off := Parse(cfg.(stopOnFirstError := true), h, text), Parse(cfg.(stopOnFirstError := false), h, text);
            on.calls <= off.calls && on.error == off.error
  {
    StoppedRunIsPrefix(cfg.syntax, h, INITIAL, Lines(cfg, text));
  }

  // ---- The byte-order mark

  /** A byte-order mark in front changes nothing when the first line leaves room for it. */
  lemma {:induction false} BomInvariance(cfg: Config, h: Handler, text: string)
    requires cfg.Valid() && cfg.syntax.allowBom && cfg.Capacity() >= 4 && !(BOM <= text)
    requires text != "" ==> ChunkLen(text, cfg.Capacity()) + 3 <= cfg.Capacity() - 1
    ensures var p, q := Parse(cfg, h, text), Parse(cfg, h, BOM + text);
            q.calls == p.calls && q.error == p.error && q.section == p.section && q.prevName == p.prevName
  {
    LinesAreChunks(cfg, text);
    LinesAreChunks(cfg, BOM + text);
    if text == "" {
      assert BOM + text == BOM;
      BomOnly(cfg.Capacity());
      OneStep(cfg.syntax, cfg.stopOnFirstError, h, INITIAL, BOM);
      BomAlone(cfg.syntax, h);
    } else {
      var n := ChunkLen(text, cfg.Capacity());
      var rest := Chunks(text[n..], cfg.Capacity());
      BomChunk(text, cfg.Capacity());
      BomStep(cfg.syntax, h, text[..n]);
      FirstStep(cfg.syntax, cfg.stopOnFirstError, h, text[..n], rest);
      FirstStep(cfg.syntax, cfg.stopOnFirstError, h, BOM + text[..n], rest);
    }
  }

  lemma {:induction false} FirstStep(syn: Syntax, stop: bool, h: Handler, line: string, rest: seq<string>)
    ensures Run(syn, stop, h, INITIAL, [line] + rest) == Run(syn, stop, h, Step(syn, h, INITIAL, line), rest)
  {
    assert ([line] + rest)[1..] == rest;
  }

  lemma {:induction false} BomOnly(max: int)
    requires max >= 4
    ensures Chunks(BOM, max) == [BOM]
  {
    assert BOM[0] != NEWLINE && BOM[1] != NEWLINE;
    ChunkLenIs(BOM, max, 3);
    assert BOM[..3] == BOM && BOM[3..] == "";
  }

  lemma {:induction false} BomAlone(syn: Syntax, h: Handler)
    requires syn.allowBom
    ensures Step(syn, h, INITIAL, BOM) == INITIAL.(lineno := 1)
  {
    assert BOM[3..] == "";
    assert Trim("") == "";
    assert LineOf(syn, INITIAL, BOM) == Comment;
  }

  lemma {:induction false} BomChunk(text: string, max: int)
    requires text != "" && max >= 2 && ChunkLen(text, max) + 3 <= max - 1 && !(BOM <= text)
    ensures var n := ChunkLen(text, max);
            && !(BOM <= text[..n])
            && Chunks(text, max) == [text[..n]] + Chunks(text[n..], max)
            && Chunks(BOM + text, max) == [BOM + text[..n]] + Chunks(text[n..], max)
  {
    assert NEWLINE !in BOM;
    PrefixedChunk(BOM, text, max);
    StillPrefix(BOM, text, ChunkLen(text, max));
  }

  lemma {:induction false} StillPrefix(p: string, text: string, n: nat)
    requires n <= |text| && !(p <= text)
    ensures !(p <= text[..n])
  {
    assert p <= text[..n] ==> p <= text;
  }

  lemma {:induction false} PrefixedChunk(p: string, text: string, max: int)
    requires text != "" && max >= 2 && ChunkLen(text, max) + |p| <= max - 1 && NEWLINE !in p
    ensures var n := ChunkLen(text, max);
            Chunks(p + text, max) == [p + text[..n]] + Chunks(text[n..], max)
  {
    PrefixedLen(p, text, max);
    Slices(p, text, ChunkLen(text, max));
  }

  lemma {:induction false} PrefixedLen(p: string, text: string, max: int)
    requires text != "" && max >= 2 && ChunkLen(text, max) + |p| <= max - 1 && NEWLINE !in p
    ensures ChunkLen(p + text, max) == |p| + ChunkLen(text, max)
  {
    var n, t := ChunkLen(text, max), p + text;
    ChunkLenSpec(text, max);
    forall k | 0 <= k < |p| + n - 1 ensures t[k] != NEWLINE {
      if k < |p| { assert t[k] == p[k] && p[k] in p; } else { assert t[k] == text[k - |p|]; }
    }
    assert t[|p| + n - 1] == text[n - 1];
    ChunkLenIs(t, max, |p| + n);
  }

  lemma {:induction false} Slices(p: string, text: string, n: nat)
    requires n <= |text|
    ensures (p + text)[..|p| + n] == p + text[..n] && (p + text)[|p| + n..] == text[n..]
  {
  }

  lemma {:induction false} BomStep(syn: Syntax, h: Handler, chunk: string)
    requires syn.allowBom && !(BOM <= chunk)
    ensures Step(syn, h, INITIAL, BOM + chunk) == Step(syn, h, INITIAL, chunk)
  {
    var marked := BOM + chunk;
    assert BOM <= marked && marked[3..] == chunk && chunk[0..] == chunk;
    assert LineOf(syn, INITIAL, marked) == ClassifyStart(syn, false, Trim(chunk));
    assert LineOf(syn, INITIAL, chunk) == ClassifyStart(syn, false, Trim(chunk));
  }
}
