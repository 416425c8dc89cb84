/** What the INI parser does, on immutable strings: how a text is cut into lines, what one line means, and
  * how a run folds the lines over the parser's state. The in-place parser of IniParser computes this. */
module Ini {
  import opened Text

  datatype Option<+T> = None | Some(value: T) {
    function UnwrapOr(default: T): T {
      match this
      case Some(v) => v
      case None => default
    }
  }

  const MAX_SECTION := 50
  const MAX_NAME := 50
  const BOM := "\U{EF}\U{BB}\U{BF}"

  /** The parser's global flags that decide what a line means. */
  datatype Syntax = Syntax(
    allowMultiline: bool,
    allowBom: bool,
    startPrefixes: string,
    allowInline: bool,
    inlinePrefixes: string,
    allowNoValue: bool)

  /** All its flags: those, whether to go on after an error, and how the line buffer is allocated. */
  datatype Config = Config(
    syntax: Syntax,
    stopOnFirstError: bool,
    useStack: bool,
    maxLine: int,
    allowRealloc: bool,
    initialAlloc: int)
  {
    /** Buffers are not empty, the prefix lists are C strings, and a buffer that grows to `maxLine`
      * does not start out larger than that. */
    predicate Valid() {
      && NulFree(syntax.startPrefixes) && NulFree(syntax.inlinePrefixes)
      && (useStack || allowRealloc ==> maxLine >= 1)
      && (!useStack ==> initialAlloc >= 1)
      && (Growing() ==> initialAlloc <= maxLine)
    }

    predicate Growing() {
      !useStack && allowRealloc
    }

    /** The size of the line buffer at the start. */
    function BufferSize(): int {
      if useStack then maxLine else initialAlloc
    }

    /** The number of bytes that a line, with its terminating NUL, may take. */
    function Capacity(): int {
      if useStack || (allowRealloc && initialAlloc >= 2) then maxLine else initialAlloc
    }
  }

  const DEFAULT_SYNTAX := Syntax(true, true, ";#", true, ";", false)
  const DEFAULT_CONFIG := Config(DEFAULT_SYNTAX, false, true, 200, false, 200)

  /** One call of the user's handler: section, name, and a value that is None for C's NULL. */
  datatype Call = Call(section: string, name: string, value: Option<string>)

  /** A handler with private state is a function of the calls it has received so far, the last of
    * them being the one it answers. `true` is a nonzero return: success. */
  type Handler = seq<Call> -> bool

  // ---- Cutting a text into lines

  /** The length of what one read delivers into a buffer of `max` bytes: up to and including the
    * first newline, at most `max - 1` bytes. */
  function ChunkLen(text: string, max: int): (n: nat)
    requires text != "" && max >= 2
    ensures 1 <= n <= |text| && n <= max - 1
    decreases |text|
  {
    if text[0] == NEWLINE || max == 2 || |text| == 1 then 1 else 1 + ChunkLen(text[1..], max - 1)
  }

  /** Exactly one length has these properties: it ends at the first newline, at the end of the text,
    * or where the buffer is full. */
  lemma {:induction false} ChunkLenSpec(text: string, max: int)
    requires text != "" && max >= 2
    ensures var n := ChunkLen(text, max);
            && (forall k :: 0 <= k < n - 1 ==> text[k] != NEWLINE)
            && (n == |text| || n == max - 1 || text[n - 1] == NEWLINE)
    decreases |text|
  {
    if !(text[0] == NEWLINE || max == 2 || |text| == 1) {
      ChunkLenSpec(text[1..], max - 1);
      var n := ChunkLen(text, max);
      assert forall k :: 1 <= k < n ==> text[k] == text[1..][k - 1];
    }
  }

  lemma {:induction false} ChunkLenIs(text: string, max: int, n: nat)
    requires text != "" && max >= 2 && 1 <= n <= |text| && n <= max - 1
    requires forall k :: 0 <= k < n - 1 ==> text[k] != NEWLINE
    requires n == |text| || n == max - 1 || text[n - 1] == NEWLINE
    ensures ChunkLen(text, max) == n
    decreases |text|
  {
    if n > 1 {
      assert text[0] != NEWLINE;
      ChunkLenIs(text[1..], max - 1, n - 1);
    }
  }

  /** All the lines that a buffer of `max` bytes sees. */
  function Chunks(text: string, max: int): (lines: seq<string>)
    decreases |text|
  {
    if text == "" || max < 2 then [] else
      var n := ChunkLen(text, max);
      [text[..n]] + Chunks(text[n..], max)
  }

  /** Growing the buffer while the line does not fit: `offset` bytes of `text` are in a buffer of
    * `max` bytes. Returns the length of the assembled line and the final size of the buffer. */
  function Grow(text: string, offset: nat, max: int, maxLine: int): (r: (nat, int))
    requires 1 <= offset <= |text| && offset <= max - 1 && max <= maxLine
    ensures offset <= r.0 <= |text| && r.0 <= r.1 - 1 && max <= r.1 <= maxLine
    decreases maxLine - max, |text| - offset
  {
    if offset == max - 1 && text[offset - 1] != NEWLINE then
      var max' := if 2 * max > maxLine then maxLine else 2 * max;
      if offset == |text| || max' - offset < 2 then
        (offset, max')
      else
        var n := ChunkLen(text[offset..], max' - offset);
        if max' >= maxLine then (offset + n, max') else Grow(text, offset + n, max', maxLine)
    else
      (offset, max)
  }

  /** All the lines seen by a buffer that starts with `max` bytes and keeps the size it has grown to. */
  function GrowLines(text: string, max: int, maxLine: int): (lines: seq<string>)
    requires max <= maxLine
    decreases |text|
  {
    if text == "" || max < 2 then [] else
      var (n, max') := Grow(text, ChunkLen(text, max), max, maxLine);
      [text[..n]] + GrowLines(text[n..], max', maxLine)
  }

  /** The length of the next line and the size of the buffer after it. */
  function NextLine(cfg: Config, text: string, max: int): (r: (nat, int))
    requires text != "" && max >= 2 && (cfg.Growing() ==> max <= cfg.maxLine)
    ensures 1 <= r.0 <= |text| && r.0 <= r.1 - 1 && (cfg.Growing() ==> r.1 <= cfg.maxLine)
  {
    if cfg.Growing() then Grow(text, ChunkLen(text, max), max, cfg.maxLine) else (ChunkLen(text, max), max)
  }

  /** The lines of `text` that a buffer of currently `max` bytes will see. */
  function LinesFrom(cfg: Config, text: string, max: int): (lines: seq<string>)
    requires cfg.Growing() ==> max <= cfg.maxLine
  {
    if cfg.Growing() then GrowLines(text, max, cfg.maxLine) else Chunks(text, max)
  }

  function Lines(cfg: Config, text: string): (lines: seq<string>)
    requires cfg.Valid()
  {
    LinesFrom(cfg, text, cfg.BufferSize())
  }

  // ---- What one line means

  /** Does a search for one of `chars`, or for an inline comment, stop at `s[i]`? An inline comment
    * starts with one of its prefixes right after a space. */
  predicate StopsAt(syn: Syntax, s: string, chars: string, i: nat)
    requires i < |s|
  {
    s[i] in chars || (syn.allowInline && i > 0 && IsSpace(s[i - 1]) && s[i] in syn.inlinePrefixes)
  }

  /** The first position at or after `i` where the search stops, `|s|` when there is none. */
  function FindFrom(syn: Syntax, s: string, chars: string, i: nat): (r: nat)
    requires i <= |s|
    ensures i <= r <= |s|
    decreases |s| - i
  {
    if i == |s| || StopsAt(syn, s, chars, i) then i else FindFrom(syn, s, chars, i + 1)
  }

  function Find(syn: Syntax, s: string, chars: string): (r: nat)
    ensures r <= |s|
  {
    FindFrom(syn, s, chars, 0)
  }

  /** The search finds the first place to stop. */
  lemma {:induction false} FindFromSpec(syn: Syntax, s: string, chars: string, i: nat)
    requires i <= |s|
    ensures var r := FindFrom(syn, s, chars, i);
            && (forall j :: i <= j < r ==> !StopsAt(syn, s, chars, j))
            && (r < |s| ==> StopsAt(syn, s, chars, r))
    decreases |s| - i
  {
    if i < |s| && !StopsAt(syn, s, chars, i) {
      FindFromSpec(syn, s, chars, i + 1);
    }
  }

  lemma {:induction false} FindFromIs(syn: Syntax, s: string, chars: string, i: nat, n: nat)
    requires i <= n <= |s|
    requires forall j :: i <= j < n ==> !StopsAt(syn, s, chars, j)
    requires n < |s| ==> StopsAt(syn, s, chars, n)
    ensures FindFrom(syn, s, chars, i) == n
    decreases n - i
  {
    if i < n {
      FindFromIs(syn, s, chars, i + 1, n);
    }
  }

  datatype Line =
    | Comment
    | Continuation(text: string)
    | Header(section: string)
    | OpenHeader                        // a '[' that is never closed
    | Pair(name: string, value: string)
    | NoValue(name: string)

  /** Bytes of a byte-order mark to drop from the front of this line. */
  function BomLen(syn: Syntax, first: bool, chunk: string): (n: nat)
    ensures n <= |chunk|
  {
    if first && syn.allowBom && BOM <= chunk then 3 else 0
  }

  /** Is the first visible character of the line away from the start of the buffer? */
  predicate Indented(syn: Syntax, first: bool, chunk: string) {
    BomLen(syn, first, chunk) > 0 || (chunk != "" && IsSpace(chunk[0]))
  }

  /** What a line means; `first` for the first line of the text, `open` when a name is waiting for
    * continuation lines. */
  function Classify(syn: Syntax, first: bool, open: bool, chunk: string): Line {
    ClassifyStart(syn, open && Indented(syn, first, chunk), Trim(chunk[BomLen(syn, first, chunk)..]))
  }

  /** The same for the trimmed text of the line; `inner` when it is indented below an open name. */
  function ClassifyStart(syn: Syntax, inner: bool, start: string): Line {
    if syn.allowMultiline && inner && !IsComment(syn, start) then Continuation(start)
    else ClassifyText(syn, start)
  }

  /** Blank lines count as comments: `strchr` finds the NUL that terminates the prefixes. */
  predicate IsComment(syn: Syntax, start: string) {
    start == "" || start[0] in syn.startPrefixes
  }

  function ClassifyText(syn: Syntax, start: string): Line {
    if IsComment(syn, start) then
      Comment
    else if start[0] == '[' then
      var e := Find(syn, start[1..], "]");
      if e < |start| - 1 && start[1 + e] == ']' then Header(start[1..1 + e]) else OpenHeader
    else
      var e := Find(syn, start, "=:");
      if e < |start| && start[e] in "=:" then
        Pair(RStrip(start[..e]), ValueText(syn, start[e + 1..]))
      else
        NoValue(RStrip(start[..e]))
  }

  /** The value of a pair: everything before an inline comment, without outer spaces. */
  function ValueText(syn: Syntax, rest: string): string {
    RStrip(LSkip(if syn.allowInline then rest[..Find(syn, rest, "")] else rest))
  }

  // ---- Folding lines over the parser's state

  /** What the parser carries from line to line. `error` is the number of the first line in error, 0
    * for none; `lineno` counts buffer loads. */
  datatype State = State(section: string, prevName: string, error: nat, lineno: nat, calls: seq<Call>)

  const INITIAL := State("", "", 0, 0, [])

  function Fail(st: State): State {
    if st.error == 0 then st.(error := st.lineno) else st
  }

  function Deliver(h: Handler, st: State, c: Call): State {
    var st' := st.(calls := st.calls + [c]);
    if h(st'.calls) then st' else Fail(st')
  }

  /** The effect of a line on a state whose `lineno` already counts it. */
  function Apply(syn: Syntax, h: Handler, st: State, line: Line): State {
    match line
    case Comment => st
    case Continuation(text) => Deliver(h, st, Call(st.section, st.prevName, Some(text)))
    case Header(section) => st.(section := Take(section, MAX_SECTION - 1), prevName := "")
    case OpenHeader => Fail(st)
    case Pair(name, value) =>
      Deliver(h, st.(prevName := Take(name, MAX_NAME - 1)), Call(st.section, name, Some(value)))
    case NoValue(name) =>
      if st.error != 0 then st
      else if syn.allowNoValue then Deliver(h, st, Call(st.section, name, None))
      else Fail(st)
  }

  function LineOf(syn: Syntax, st: State, chunk: string): Line {
    Classify(syn, st.lineno == 0, st.prevName != "", chunk)
  }

  function Step(syn: Syntax, h: Handler, st: State, chunk: string): State {
    Apply(syn, h, st.(lineno := st.lineno + 1), LineOf(syn, st, chunk))
  }

  /** Each line is counted once, and an error is numbered when it happens. */
  lemma {:induction false} StepCounts(syn: Syntax, h: Handler, st: State, chunk: string)
    ensures var st' := Step(syn, h, st, chunk);
            && st'.lineno == st.lineno + 1
            && (st.error != 0 ==> st'.error == st.error)
            && (st.error == 0 ==> st'.error == 0 || st'.error == st'.lineno)
            && st.calls <= st'.calls
  {
    var line := LineOf(syn, st, chunk);
    assert Step(syn, h, st, chunk) == Apply(syn, h, st.(lineno := st.lineno + 1), line);
  }

  predicate Stopped(stop: bool, st: State) {
    stop && st.error != 0
  }

  /** The lines in turn, from any state; `stop` to give up after the first error. */
  function Run(syn: Syntax, stop: bool, h: Handler, st: State, lines: seq<string>): State
    decreases |lines|
  {
    if lines == [] || Stopped(stop, st) then st
    else Run(syn, stop, h, Step(syn, h, st, lines[0]), lines[1..])
  }

  /** Parsing a whole text. The parser returns `error`; the handler has received `calls`. */
  function Parse(cfg: Config, h: Handler, text: string): State
    requires cfg.Valid()
  {
    Run(cfg.syntax, cfg.stopOnFirstError, h, INITIAL, Lines(cfg, text))
  }
}
