/** The documentation promises the line number of the first error, and the parser counts buffer loads.
  * When the two are the same, and an input where they are not. */
module FileLines {
  import opened Text
  import opened Ini
  import opened Reader
  import opened Runs
  import opened Errors
  import opened Delivered

  function Newlines(s: string): nat {
    if s == "" then 0 else (if s[0] == NEWLINE then 1 else 0) + Newlines(s[1..])
  }

  /** The line of the file in which the parser's line `k` starts, counted from 1. */
  function FileLine(lines: seq<string>, k: nat): nat
    requires k <= |lines|
  {
    if k == 0 then 1 else FileLine(lines, k - 1) + Newlines(lines[k - 1])
  }

  predicate EndsLine(line: string) {
    line != "" && line[|line| - 1] == NEWLINE
  }

  lemma {:induction false} NewlinesOfLine(line: string)
    requires line != "" && SingleLine(line)
    ensures Newlines(line) == if EndsLine(line) then 1 else 0
  {
    if |line| > 1 {
      assert line[0] != NEWLINE;
      NewlinesOfLine(line[1..]);
    }
  }

  lemma {:induction false} FileLineCounts(lines: seq<string>, k: nat)
    requires k <= |lines|
    requires forall line :: line in lines ==> line != "" && SingleLine(line)
    ensures FileLine(lines, k) <= k + 1
    ensures FileLine(lines, k) == k + 1 <==> forall i :: 0 <= i < k ==> EndsLine(lines[i])
  {
    if k > 0 {
      FileLineCounts(lines, k - 1);
      assert lines[k - 1] in lines;
      NewlinesOfLine(lines[k - 1]);
    }
  }

  ghost predicate HasNewline(text: string, i: nat, room: int) {
    exists k :: i <= k < i + room && k < |text| && text[k] == NEWLINE
  }

  /** Every stretch of text that fills the room of the buffer contains a newline. */
  ghost predicate LinesFit(text: string, room: int) {
    forall i: nat :: i <= |text| - room ==> HasNewline(text, i, room)
  }

  lemma {:induction false} FittingLinesEnd(text: string, max: int)
    requires max >= 2 && LinesFit(text, max - 1)
    ensures var lines := Chunks(text, max); forall i :: 0 <= i < |lines| - 1 ==> EndsLine(lines[i])
    decreases |text|
  {
    if text != "" {
      var n, lines := ChunkLen(text, max), Chunks(text, max);
      FitRest(text, n, max - 1);
      FittingLinesEnd(text[n..], max);
      assert lines == [text[..n]] + Chunks(text[n..], max);
      if n < |text| {
        FirstLineEnds(text, max);
      }
      forall i | 0 <= i < |lines| - 1 ensures EndsLine(lines[i]) {
        if i > 0 { assert lines[i] == Chunks(text[n..], max)[i - 1]; }
      }
    }
  }

  lemma {:induction false} FirstLineEnds(text: string, max: int)
    requires text != "" && max >= 2 && LinesFit(text, max - 1) && ChunkLen(text, max) < |text|
    ensures EndsLine(text[..ChunkLen(text, max)])
  {
    ChunkLenSpec(text, max);
    if ChunkLen(text, max) == max - 1 {
      assert HasNewline(text, 0, max - 1);
    }
  }

  lemma {:induction false} FitRest(text: string, n: nat, room: int)
    requires n <= |text| && LinesFit(text, room)
    ensures LinesFit(text[n..], room)
  {
    var rest := text[n..];
    forall i: nat | i <= |rest| - room ensures HasNewline(rest, i, room) {
      assert HasNewline(text, n + i, room);
      var k :| n + i <= k < n + i + room && k < |text| && text[k] == NEWLINE;
      assert rest[k - n] == NEWLINE;
    }
  }

  /** The number that a parse returned is the line of the file where the failing load starts. */
  predicate NumberIsRight(lines: seq<string>, error: nat) {
    error == 0 || (error <= |lines| && FileLine(lines, error - 1) == error)
  }

  lemma {:induction false} NumberIsRightIff(cfg: Config, h: Handler, text: string)
    requires cfg.Valid()
    ensures var lines, error := Lines(cfg, text), Parse(cfg, h, text).error;
            && error <= |lines|
            && (error > 0 ==> FileLine(lines, error - 1) <= error)
            && (NumberIsRight(lines, error) <==> forall i :: 0 <= i < error - 1 ==> EndsLine(lines[i]))
  {
    ErrorIsFirstFailure(cfg, h, text);
    SingleLines(cfg, text);
    if Parse(cfg, h, text).error > 0 {
      FileLineCounts(Lines(cfg, text), Parse(cfg, h, text).error - 1);
    }
  }

  // ---- Which lines can be the first to fail

  /** Some handler makes line `i` the first failure: it is malformed or leads to a call, and no line
    * before it is malformed. */
  predicate CanFailFirst(syn: Syntax, ms: seq<Line>, i: nat)
    requires i < |ms|
  {
    !ms[i].Comment? && !ms[i].Header? && forall j :: 0 <= j < i ==> !Malformed(syn, ms[j])
  }

  lemma {:induction false} StepOpens(syn: Syntax, h: Handler, st: State, chunk: string)
    ensures var st' := Step(syn, h, st, chunk);
            && st'.lineno == st.lineno + 1
            && (st'.prevName != "" <==> Opens(st.prevName != "", LineOf(syn, st, chunk)))
  {
    var line := LineOf(syn, st, chunk);
    assert Step(syn, h, st, chunk) == Apply(syn, h, st.(lineno := st.lineno + 1), line);
    ApplyOpens(syn, h, st.(lineno := st.lineno + 1), line);
  }

  lemma {:induction false} ApplyOpens(syn: Syntax, h: Handler, st: State, m: Line)
    ensures Apply(syn, h, st, m).lineno == st.lineno
    ensures Apply(syn, h, st, m).prevName != "" <==> Opens(st.prevName != "", m)
  {
  }

  /** The line that a run meets means what it means without a run. */
  lemma {:induction false} LineMeans(syn: Syntax, h: Handler, st: State, lines: seq<string>, i: nat)
    requires i < |lines|
    ensures LineOf(syn, Run(syn, false, h, st, lines[..i]), lines[i])
            == Meanings(syn, st.lineno == 0, st.prevName != "", lines)[i]
    decreases i
  {
    if i > 0 {
      StepOpens(syn, h, st, lines[0]);
      LineMeans(syn, h, Step(syn, h, st, lines[0]), lines[1..], i - 1);
      assert lines[..i][1..] == lines[1..][..i - 1];
    }
  }

  lemma {:induction false} MeaningsPrefix(syn: Syntax, first: bool, open: bool, lines: seq<string>, i: nat)
    requires i <= |lines|
    ensures Meanings(syn, first, open, lines[..i]) == Meanings(syn, first, open, lines)[..i]
    decreases i
  {
    if i > 0 {
      var m := Classify(syn, first, open, lines[0]);
      MeaningsPrefix(syn, false, Opens(open, m), lines[1..], i - 1);
      assert lines[..i][1..] == lines[1..][..i - 1];
    }
  }

  /** The first failure of a parse is a line that can fail first. */
  lemma {:induction false} FirstFailureKind(cfg: Config, h: Handler, text: string)
    requires cfg.Valid() && Parse(cfg, h, text).error > 0
    ensures var error := Parse(cfg, h, text).error;
            error <= |Lines(cfg, text)| && CanFailFirst(cfg.syntax, MeaningsOf(cfg, text), error - 1)
  {
    var lines, ms, error := Lines(cfg, text), MeaningsOf(cfg, text), Parse(cfg, h, text).error;
    ErrorIsFirstFailure(cfg, h, text);
    forall j | 0 <= j < error ensures LineOf(cfg.syntax, Before(cfg.syntax, h, lines, j), lines[j]) == ms[j] {
      LineMeans(cfg.syntax, h, INITIAL, lines, j);
    }
    forall j | 0 <= j < error - 1 ensures !Malformed(cfg.syntax, ms[j]) {
      assert !FailsAt(cfg.syntax, h, lines, j);
    }
    assert FailsAt(cfg.syntax, h, lines, error - 1);
  }

  /** The handler that rejects its call number `n`, counted from 0, and no other. */
  function Rejecting(n: nat): Handler {
    (calls: seq<Call>) => |calls| != n + 1
  }

  function CallCount(syn: Syntax, ms: seq<Line>): nat {
    |LineCalls(syn.allowNoValue, 0, ms)|
  }

  lemma {:induction false} CallCountGrows(syn: Syntax, ms: seq<Line>, j: nat, i: nat)
    requires j <= i <= |ms|
    ensures CallCount(syn, ms[..j]) <= CallCount(syn, ms[..i])
    decreases i - j
  {
    if j < i {
      assert ms[..i][..i - 1] == ms[..i - 1];
      CallCountGrows(syn, ms, j, i - 1);
    }
  }

  lemma {:induction false} CallCountNext(syn: Syntax, st: State, ms: seq<Line>, j: nat)
    requires j < |ms| && st.error == 0
    ensures CallCount(syn, ms[..j + 1]) == CallCount(syn, ms[..j]) + if CallOf(syn, st, ms[j]).Some? then 1 else 0
  {
    assert ms[..j + 1][..j] == ms[..j];
    CallOfLine(syn, st, ms[..j], ms[j]);
  }

  lemma {:induction false} CallOfLine(syn: Syntax, st: State, ms: seq<Line>, m: Line)
    requires st.error == 0
    ensures |LineCall(syn.allowNoValue, 0, ms, m)| == if CallOf(syn, st, m).Some? then 1 else 0
  {
  }

  /** Before line `j`, when nothing has failed: as many calls as the lines ask for. */
  lemma {:induction false} CallsBefore(syn: Syntax, h: Handler, lines: seq<string>, j: nat)
    requires j <= |lines| && Before(syn, h, lines, j).error == 0
    ensures |Before(syn, h, lines, j).calls| == CallCount(syn, Meanings(syn, true, false, lines)[..j])
  {
    var ms := Meanings(syn, true, false, lines);
    RunFollows(syn, false, h, INITIAL, [], lines[..j]);
    MeaningsPrefix(syn, true, false, lines, j);
    assert [] + ms[..j] == ms[..j] && ms[..j][..j] == ms[..j];
  }

  /** When nothing has failed so far, this handler fails line `j` only for being malformed or for being
    * the line of that call. */
  lemma {:induction false} NextWithRejecting(syn: Syntax, lines: seq<string>, n: nat, j: nat)
    requires j < |lines| && Before(syn, Rejecting(n), lines, j).error == 0
    ensures var ms := Meanings(syn, true, false, lines);
            Before(syn, Rejecting(n), lines, j + 1).error
            == if Malformed(syn, ms[j])
                  || (CallCount(syn, ms[..j + 1]) == CallCount(syn, ms[..j]) + 1 && CallCount(syn, ms[..j]) == n)
               then j + 1 else 0
  {
    var st, ms := Before(syn, Rejecting(n), lines, j), Meanings(syn, true, false, lines);
    CallsBefore(syn, Rejecting(n), lines, j);
    RunCounts(syn, false, Rejecting(n), INITIAL, lines[..j]);
    CallCountNext(syn, st, ms, j);
    LineMeans(syn, Rejecting(n), INITIAL, lines, j);
    BeforeNext(syn, Rejecting(n), lines, j);
    StepFails(syn, Rejecting(n), st, lines[j]);
  }

  /** A line that can fail first is malformed or leads to a call. */
  lemma {:induction false} CanFailFirstCalls(syn: Syntax, ms: seq<Line>, i: nat)
    requires i < |ms| && CanFailFirst(syn, ms, i)
    ensures Malformed(syn, ms[i]) || CallCount(syn, ms[..i + 1]) == CallCount(syn, ms[..i]) + 1
  {
    CallCountNext(syn, INITIAL, ms, i);
  }

  /** With that handler for the call of line `i`, nothing fails before line `i`. */
  lemma {:induction false} NothingBefore(syn: Syntax, lines: seq<string>, i: nat, j: nat)
    requires j <= i < |lines| && CanFailFirst(syn, Meanings(syn, true, false, lines), i)
    ensures Before(syn, Rejecting(CallCount(syn, Meanings(syn, true, false, lines)[..i])), lines, j).error == 0
  {
    if j > 0 {
      var ms := Meanings(syn, true, false, lines);
      NothingBefore(syn, lines, i, j - 1);
      NextWithRejecting(syn, lines, CallCount(syn, ms[..i]), j - 1);
      CallCountGrows(syn, ms, j, i);
    }
  }

  /** So line `i` is the first failure. */
  lemma {:induction false} RejectedThere(cfg: Config, text: string, i: nat)
    requires cfg.Valid() && i < |Lines(cfg, text)| && CanFailFirst(cfg.syntax, MeaningsOf(cfg, text), i)
    ensures Parse(cfg, Rejecting(CallCount(cfg.syntax, MeaningsOf(cfg, text)[..i])), text).error == i + 1
  {
    var lines, n := Lines(cfg, text), CallCount(cfg.syntax, MeaningsOf(cfg, text)[..i]);
    NothingBefore(cfg.syntax, lines, i, i);
    NextWithRejecting(cfg.syntax, lines, n, i);
    CanFailFirstCalls(cfg.syntax, MeaningsOf(cfg, text), i);
    ErrorStays(cfg.syntax, Rejecting(n), lines, i + 1);
    StoppedRunIsPrefix(cfg.syntax, Rejecting(n), INITIAL, lines);
  }

  /** Later lines do not change the first error. */
  lemma {:induction false} ErrorStays(syn: Syntax, h: Handler, lines: seq<string>, k: nat)
    requires k <= |lines| && Before(syn, h, lines, k).error != 0
    ensures Run(syn, false, h, INITIAL, lines).error == Before(syn, h, lines, k).error
  {
    assert lines == lines[..k] + lines[k..];
    RunAppend(syn, false, h, INITIAL, lines[..k], lines[k..]);
    CallsGrow(syn, false, h, Before(syn, h, lines, k), lines[k..]);
  }

  /** Whatever the handler answers, the parser returns the number of a line of the file if and only if
    * each line that can be the first to fail has only complete lines before it. */
  lemma {:induction false} ErrorIsFileLine(cfg: Config, text: string)
    requires cfg.Valid()
    ensures var lines, ms := Lines(cfg, text), MeaningsOf(cfg, text);
            (forall h: Handler :: NumberIsRight(lines, Parse(cfg, h, text).error))
            <==> forall i, j :: 0 <= j < i < |lines| && CanFailFirst(cfg.syntax, ms, i) ==> EndsLine(lines[j])
  {
    var lines, ms := Lines(cfg, text), MeaningsOf(cfg, text);
    if forall h: Handler :: NumberIsRight(lines, Parse(cfg, h, text).error) {
      forall i, j | 0 <= j < i < |lines| && CanFailFirst(cfg.syntax, ms, i) ensures EndsLine(lines[j]) {
        RejectedThere(cfg, text, i);
        NumberIsRightIff(cfg, Rejecting(CallCount(cfg.syntax, ms[..i])), text);
      }
    }
    if forall i, j :: 0 <= j < i < |lines| && CanFailFirst(cfg.syntax, ms, i) ==> EndsLine(lines[j]) {
      forall h: Handler ensures NumberIsRight(lines, Parse(cfg, h, text).error) {
        NumberIsRightIff(cfg, h, text);
        if Parse(cfg, h, text).error > 0 { FirstFailureKind(cfg, h, text); }
      }
    }
  }

  /** In particular it does when every line of the text fits the buffer. */
  lemma {:induction false} FittingTextIsNumberedRight(cfg: Config, h: Handler, text: string)
    requires cfg.Valid() && LinesFit(text, cfg.Capacity() - 1)
    ensures NumberIsRight(Lines(cfg, text), Parse(cfg, h, text).error)
  {
    LinesAreChunks(cfg, text);
    if cfg.Capacity() >= 2 { FittingLinesEnd(text, cfg.Capacity()); }
    NumberIsRightIff(cfg, h, text);
  }

  // ---- An input where it does not

  function Semicolons(n: nat): (s: string)
    ensures |s| == n
  {
    seq(n, _ => ';')
  }

  /** A comment of 250 characters and a malformed line. */
  const LONG_COMMENT := Semicolons(250) + "\n" + "x\n"

  lemma {:induction false} LongCommentLines()
    ensures Lines(DEFAULT_CONFIG, LONG_COMMENT) == [Semicolons(199), Semicolons(51) + "\n", "x\n"]
  {
    var lines := [Semicolons(199), Semicolons(51) + "\n", "x\n"];
    assert lines[1..][1..] == ["x\n"] && ["x\n"][1..] == [];
    assert Concat([]) == "" && Concat(["x\n"]) == "x\n";
    assert Concat(lines[1..]) == Semicolons(51) + "\n" + "x\n";
    assert Concat(lines) == Semicolons(199) + Concat(lines[1..]) == LONG_COMMENT;
    ChunksUnique(lines, 200);
  }

  lemma {:induction false} SemicolonStep(h: Handler, st: State, c: string)
    requires c != "" && c[0] == ';'
    ensures Step(DEFAULT_SYNTAX, h, st, c) == st.(lineno := st.lineno + 1)
  {
    RStripKeepsFirst(c);
    LSkipStops(RStrip(c));
    CommentStep(DEFAULT_SYNTAX, h, st, c);
  }

  lemma {:induction false} BareNameStep(h: Handler, st: State)
    requires st.error == 0 && st.lineno > 0
    ensures Step(DEFAULT_SYNTAX, h, st, "x\n").error == st.lineno + 1
  {
    var c := "x\n";
    RStripAppend("x", "\n");
    assert "x" + "\n" == c && c[0..] == c;
    RStripStops("x");
    LSkipStops("x");
    assert Find(DEFAULT_SYNTAX, "x", "=:") == 1;
    assert LineOf(DEFAULT_SYNTAX, st, c).NoValue?;
  }

  lemma {:induction false} ThreeSteps(h: Handler, st: State, a: string, b: string, c: string)
    ensures Run(DEFAULT_SYNTAX, false, h, st, [a, b, c])
            == Step(DEFAULT_SYNTAX, h, Step(DEFAULT_SYNTAX, h, Step(DEFAULT_SYNTAX, h, st, a), b), c)
  {
    var st1 := Step(DEFAULT_SYNTAX, h, st, a);
    RunAppend(DEFAULT_SYNTAX, false, h, st, [a], [b, c]);
    RunAppend(DEFAULT_SYNTAX, false, h, st1, [b], [c]);
    assert [a] + [b, c] == [a, b, c] && [b] + [c] == [b, c];
    OneStep(DEFAULT_SYNTAX, false, h, st, a);
    OneStep(DEFAULT_SYNTAX, false, h, st1, b);
    OneStep(DEFAULT_SYNTAX, false, h, Step(DEFAULT_SYNTAX, h, st1, b), c);
  }

  lemma {:induction false} LongCommentRun(h: Handler)
    ensures Run(DEFAULT_SYNTAX, false, h, INITIAL, [Semicolons(199), Semicolons(51) + "\n", "x\n"]).error == 3
  {
    var a, b := Semicolons(199), Semicolons(51) + "\n";
    var st1, st2 := INITIAL.(lineno := 1), INITIAL.(lineno := 2);
    ThreeSteps(h, INITIAL, a, b, "x\n");
    SemicolonStep(h, INITIAL, a);
    SemicolonStep(h, st1, b);
    BareNameStep(h, st2);
  }

  /** With the default flags and any handler, the malformed line 2 of that text is reported as line 3. */
  lemma {:induction false} LongCommentMiscounts(h: Handler)
    ensures var lines := Lines(DEFAULT_CONFIG, LONG_COMMENT);
            && |lines| == 3 && Parse(DEFAULT_CONFIG, h, LONG_COMMENT).error == 3
            && FileLine(lines, 2) == 2 && !NumberIsRight(lines, 3)
  {
    LongCommentLines();
    LongCommentRun(h);
    var lines := Lines(DEFAULT_CONFIG, LONG_COMMENT);
    SingleLines(DEFAULT_CONFIG, LONG_COMMENT);
    assert lines[0] in lines && lines[1] in lines;
    NewlinesOfLine(lines[0]);
    NewlinesOfLine(lines[1]);
    assert lines[0][198] == ';' && lines[1][51] == NEWLINE;
    assert FileLine(lines, 1) == 1;
  }
}
