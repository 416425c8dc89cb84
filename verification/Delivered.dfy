/** What reaches the handler, read off the lines alone: each call belongs to the last section header
  * and, for a continuation line, to the last pair of that section. */
module Delivered {
  import opened Text
  import opened Ini
  import opened Reader

  /** Is a name open for continuation after this line? */
  predicate Opens(open: bool, line: Line) {
    match line
    case Header(_) => false
    case Pair(name, _) => name != ""
    case _ => open
  }

  /** What the lines mean, one after the other. No handler is involved. */
  function Meanings(syn: Syntax, first: bool, open: bool, lines: seq<string>): (ms: seq<Line>)
    ensures |ms| == |lines|
    decreases |lines|
  {
    if lines == [] then [] else
      var m := Classify(syn, first, open, lines[0]);
      [m] + Meanings(syn, false, Opens(open, m), lines[1..])
  }

  /** The section of whatever follows `ms`: the last header, cut to the buffer. */
  function SectionAt(ms: seq<Line>): string {
    if ms == [] then "" else
      var n := |ms| - 1;
      if ms[n].Header? then Take(ms[n].section, MAX_SECTION - 1) else SectionAt(ms[..n])
  }

  /** The name of the last pair of the section, "" when the section has none yet. */
  function LastName(ms: seq<Line>): string {
    if ms == [] then "" else
      var n := |ms| - 1;
      if ms[n].Header? then ""
      else if ms[n].Pair? then ms[n].name
      else LastName(ms[..n])
  }

  /** The name of a continuation line that follows `ms`: the last pair of the section, cut to the buffer. */
  function NameAt(ms: seq<Line>): string {
    if ms == [] then "" else
      var n := |ms| - 1;
      if ms[n].Header? then ""
      else if ms[n].Pair? then Take(ms[n].name, MAX_NAME - 1)
      else NameAt(ms[..n])
  }

  /** The call that the line behind `ms` leads to. A name without value is reported where that is
    * allowed and while no error has happened: the first error, if any, is in line `error`. */
  function LineCall(allowNoValue: bool, error: nat, ms: seq<Line>, m: Line): seq<Call> {
    match m
    case Pair(name, value) => [Call(SectionAt(ms), name, Some(value))]
    case Continuation(text) => [Call(SectionAt(ms), NameAt(ms), Some(text))]
    case NoValue(name) =>
      if allowNoValue && (error == 0 || |ms| < error) then [Call(SectionAt(ms), name, None)] else []
    case _ => []
  }

  /** All calls that these lines lead to. */
  function LineCalls(allowNoValue: bool, error: nat, ms: seq<Line>): seq<Call> {
    if ms == [] then [] else
      var n := |ms| - 1;
      LineCalls(allowNoValue, error, ms[..n]) + LineCall(allowNoValue, error, ms[..n], ms[n])
  }

  /** An error in a later line changes nothing. */
  lemma {:induction false} LaterError(allowNoValue: bool, error: nat, ms: seq<Line>)
    requires error >= |ms|
    ensures LineCalls(allowNoValue, error, ms) == LineCalls(allowNoValue, 0, ms)
  {
    if ms != [] {
      LaterError(allowNoValue, error, ms[..|ms| - 1]);
    }
  }

  /** The state that the lines `ms` have led to. */
  ghost predicate Follows(syn: Syntax, st: State, ms: seq<Line>) {
    && st.section == SectionAt(ms) && st.prevName == NameAt(ms)
    && st.lineno == |ms| && st.error <= |ms|
    && st.calls == LineCalls(syn.allowNoValue, st.error, ms)
  }

  /** The effect of a line; the handler's answer decides about the error only. */
  lemma {:induction false} ApplyEffect(syn: Syntax, h: Handler, st: State, ms: seq<Line>, m: Line)
    requires st.section == SectionAt(ms) && st.prevName == NameAt(ms)
    requires st.lineno == |ms| + 1 && st.error <= |ms|
    ensures var st' := Apply(syn, h, st, m);
            && st'.section == (if m.Header? then Take(m.section, MAX_SECTION - 1) else st.section)
            && st'.prevName
               == (if m.Header? then "" else if m.Pair? then Take(m.name, MAX_NAME - 1) else st.prevName)
            && st'.lineno == st.lineno && (st'.error == st.error || (st.error == 0 && st'.error == st.lineno))
            && st'.calls == st.calls + LineCall(syn.allowNoValue, st'.error, ms, m)
            && (st'.prevName != "" <==> Opens(st.prevName != "", m))
  {
  }

  lemma {:induction false} StepFollows(syn: Syntax, h: Handler, st: State, ms: seq<Line>, chunk: string)
    requires Follows(syn, st, ms)
    ensures var st', m := Step(syn, h, st, chunk), Classify(syn, st.lineno == 0, st.prevName != "", chunk);
            Follows(syn, st', ms + [m]) && (st'.prevName != "" <==> Opens(st.prevName != "", m))
  {
    var st1, m := st.(lineno := st.lineno + 1), LineOf(syn, st, chunk);
    ApplyEffect(syn, h, st1, ms, m);
    FollowsAdd(syn, st, Apply(syn, h, st1, m), ms, m);
  }

  lemma {:induction false} FollowsAdd(syn: Syntax, st: State, st': State, ms: seq<Line>, m: Line)
    requires Follows(syn, st, ms)
    requires st'.section == if m.Header? then Take(m.section, MAX_SECTION - 1) else st.section
    requires st'.prevName == if m.Header? then "" else if m.Pair? then Take(m.name, MAX_NAME - 1) else st.prevName
    requires st'.lineno == |ms| + 1 && (st'.error == st.error || (st.error == 0 && st'.error == |ms| + 1))
    requires st'.calls == st.calls + LineCall(syn.allowNoValue, st'.error, ms, m)
    ensures Follows(syn, st', ms + [m])
  {
    if st'.error != st.error {
      LaterError(syn.allowNoValue, st'.error, ms);
    }
  }

  lemma {:induction false} ConsMeanings(ms: seq<Line>, m: Line, rest: seq<Line>)
    ensures ms + [m] + rest == ms + ([m] + rest)
  {
  }

  /** A run from any state, stopping or not: `end.lineno` lines have been used. */
  lemma {:induction false} RunFollows(syn: Syntax, stop: bool, h: Handler, st: State, ms: seq<Line>, lines: seq<string>)
    requires Follows(syn, st, ms) && (Stopped(stop, st) ==> st.error == st.lineno)
    ensures var end, all := Run(syn, stop, h, st, lines), ms + Meanings(syn, st.lineno == 0, st.prevName != "", lines);
            && end.lineno == (if Stopped(stop, end) then end.error else |all|)
            && end.lineno <= |all| && Follows(syn, end, all[..end.lineno])
    decreases |lines|
  {
    var all := ms + Meanings(syn, st.lineno == 0, st.prevName != "", lines);
    if lines == [] || Stopped(stop, st) {
      assert all[..|ms|] == ms;
    } else {
      var m, st' := Classify(syn, st.lineno == 0, st.prevName != "", lines[0]), Step(syn, h, st, lines[0]);
      StepFollows(syn, h, st, ms, lines[0]);
      StepCounts(syn, h, st, lines[0]);
      RunFollows(syn, stop, h, st', ms + [m], lines[1..]);
      ConsMeanings(ms, m, Meanings(syn, false, st'.prevName != "", lines[1..]));
    }
  }

  /** What the lines of a text mean. */
  function MeaningsOf(cfg: Config, text: string): (ms: seq<Line>)
    requires cfg.Valid()
    ensures |ms| == |Lines(cfg, text)|
  {
    Meanings(cfg.syntax, true, false, Lines(cfg, text))
  }

  /** After any text, section and open name are those of the last header and pair among the lines that
    * were used, and the calls are exactly those that these lines ask for, in order. All lines are used,
    * unless the parser stops, behind the line of the first error. What the handler answers matters only
    * through the number of the first error. */
  lemma {:induction false} CallsFollowLines(cfg: Config, h: Handler, text: string)
    requires cfg.Valid()
    ensures var st, ms := Parse(cfg, h, text), MeaningsOf(cfg, text);
            && st.lineno == (if cfg.stopOnFirstError && st.error != 0 then st.error else |ms|)
            && st.lineno <= |ms|
            && st.section == SectionAt(ms[..st.lineno]) && st.prevName == NameAt(ms[..st.lineno])
            && st.calls == LineCalls(cfg.syntax.allowNoValue, st.error, ms[..st.lineno])
  {
    RunFollows(cfg.syntax, cfg.stopOnFirstError, h, INITIAL, [], Lines(cfg, text));
    assert [] + MeaningsOf(cfg, text) == MeaningsOf(cfg, text);
  }

  // ---- What the delivered strings look like

  /** A trimmed text, not spread over lines. */
  predicate Clean(s: string) {
    Trimmed(s) && NEWLINE !in s
  }

  /** The call comes from line `i`, is delivered under the section in force there, and has its text: a
    * pair's own name and value, trimmed at any length; a continuation under the open name. */
  predicate FromLine(ms: seq<Line>, i: nat, c: Call)
    requires i < |ms|
  {
    && c.section == SectionAt(ms[..i])
    && match ms[i]
       case Pair(name, value) => c.name == name && Clean(name) && c.value == Some(value) && Clean(value)
       case Continuation(text) => c.name == NameAt(ms[..i]) && c.value == Some(text) && Clean(text)
       case NoValue(name) => c.name == name && Clean(name) && c.value == None
       case _ => false
  }

  predicate Bounded(s: string) {
    |s| <= MAX_SECTION - 1 && NEWLINE !in s
  }

  predicate CleanLine(m: Line) {
    match m
    case Continuation(text) => Clean(text)
    case Header(section) => NEWLINE !in section
    case Pair(name, value) => Clean(name) && Clean(value)
    case NoValue(name) => Clean(name)
    case _ => true
  }

  /** A newline can only be the last character. */
  predicate SingleLine(line: string) {
    forall k :: 0 <= k < |line| - 1 ==> line[k] != NEWLINE
  }

  /** Only the last character of a line can be a newline, and trimming removes it. */
  lemma {:induction false} TrimmedLine(chunk: string, b: nat)
    requires b <= |chunk| && SingleLine(chunk)
    ensures Clean(Trim(chunk[b..]))
  {
    var l, r := TrimSplit(chunk[b..]);
    var t := Trim(chunk[b..]);
    forall i | 0 <= i < |t| ensures t[i] != NEWLINE {
      assert t[i] == chunk[b..][|l| + i];
    }
  }

  lemma {:induction false} TrimmedName(t: string, e: nat)
    requires Clean(t) && e <= |t|
    ensures Clean(RStrip(t[..e]))
  {
    var r := RStripSplit(t[..e]);
    if e > 0 {
      RStripKeepsFirst(t[..e]);
    }
    assert forall c :: c in RStrip(t[..e]) ==> c in t;
  }

  lemma {:induction false} TrimmedValue(syn: Syntax, rest: string)
    requires NEWLINE !in rest
    ensures Clean(ValueText(syn, rest))
  {
    var v := if syn.allowInline then rest[..Find(syn, rest, "")] else rest;
    var l, r := TrimSplit(v);
    assert forall c :: c in Trim(v) ==> c in v;
  }

  lemma {:induction false} CleanText(syn: Syntax, t: string)
    requires Clean(t)
    ensures CleanLine(ClassifyText(syn, t))
  {
    var m := ClassifyText(syn, t);
    if m.Header? {
      assert forall c :: c in m.section ==> c in t;
    } else if m.Pair? || m.NoValue? {
      var e := Find(syn, t, "=:");
      TrimmedName(t, e);
      if m.Pair? { TrimmedValue(syn, t[e + 1..]); }
    }
  }

  lemma {:induction false} CleanMeaning(syn: Syntax, first: bool, open: bool, chunk: string)
    requires SingleLine(chunk)
    ensures CleanLine(Classify(syn, first, open, chunk))
  {
    TrimmedLine(chunk, BomLen(syn, first, chunk));
    CleanText(syn, Trim(chunk[BomLen(syn, first, chunk)..]));
  }

  lemma {:induction false} CleanMeanings(syn: Syntax, first: bool, open: bool, lines: seq<string>)
    requires forall line :: line in lines ==> SingleLine(line)
    ensures forall m :: m in Meanings(syn, first, open, lines) ==> CleanLine(m)
    decreases |lines|
  {
    if lines != [] {
      var m := Classify(syn, first, open, lines[0]);
      assert lines[0] in lines;
      CleanMeaning(syn, first, open, lines[0]);
      CleanMeanings(syn, false, Opens(open, m), lines[1..]);
    }
  }

  lemma {:induction false} SingleLines(cfg: Config, text: string)
    requires cfg.Valid()
    ensures forall line :: line in Lines(cfg, text) ==> line != "" && SingleLine(line)
  {
    var lines, max := Lines(cfg, text), cfg.Capacity();
    LinesAreChunks(cfg, text);
    if max >= 2 {
      ChunksSpec(text, max);
      forall i | 0 <= i < |lines| ensures lines[i] != "" && SingleLine(lines[i]) {
        assert IsLine(lines[i], max, i == |lines| - 1);
      }
    }
  }

  lemma {:induction false} CleanSection(ms: seq<Line>)
    requires forall m :: m in ms ==> CleanLine(m)
    ensures Bounded(SectionAt(ms))
  {
    if ms != [] {
      var n := |ms| - 1;
      assert ms[n] in ms;
      if ms[n].Header? {
        assert forall c :: c in SectionAt(ms) ==> c in ms[n].section;
      } else {
        CleanSection(ms[..n]);
      }
    }
  }

  /** The open name is the last pair's trimmed name, cut to the buffer. */
  lemma {:induction false} NameIsCut(ms: seq<Line>)
    requires forall m :: m in ms ==> CleanLine(m)
    ensures Clean(LastName(ms)) && NameAt(ms) == Take(LastName(ms), MAX_NAME - 1)
  {
    if ms != [] {
      var n := |ms| - 1;
      assert ms[n] in ms;
      if !ms[n].Header? && !ms[n].Pair? {
        NameIsCut(ms[..n]);
      }
    }
  }

  lemma {:induction false} CallsFromLines(allowNoValue: bool, error: nat, ms: seq<Line>, n: nat)
    requires n <= |ms| && forall m :: m in ms ==> CleanLine(m)
    ensures forall c :: c in LineCalls(allowNoValue, error, ms[..n]) ==>
              Bounded(c.section) && exists i :: 0 <= i < n && FromLine(ms, i, c)
  {
    if n > 0 {
      CallsFromLines(allowNoValue, error, ms, n - 1);
      assert ms[..n][..n - 1] == ms[..n - 1] && ms[n - 1] in ms;
      CleanSection(ms[..n - 1]);
      forall c | c in LineCall(allowNoValue, error, ms[..n - 1], ms[n - 1])
        ensures Bounded(c.section) && FromLine(ms, n - 1, c)
      {
      }
    }
  }

  /** Every call of every parse comes from a line of the text; its section fits the buffer, the name of
    * a pair and every value are trimmed and on one line, and only the name of a continuation line may
    * have been cut, from a name that was trimmed. */
  lemma {:induction false} DeliveredText(cfg: Config, h: Handler, text: string)
    requires cfg.Valid()
    ensures var ms := MeaningsOf(cfg, text);
            && (forall c :: c in Parse(cfg, h, text).calls ==>
                  Bounded(c.section) && exists i :: 0 <= i < |ms| && FromLine(ms, i, c))
            && forall i :: 0 <= i < |ms| ==>
                 Clean(LastName(ms[..i])) && NameAt(ms[..i]) == Take(LastName(ms[..i]), MAX_NAME - 1)
  {
    var st, ms := Parse(cfg, h, text), MeaningsOf(cfg, text);
    SingleLines(cfg, text);
    CleanMeanings(cfg.syntax, true, false, Lines(cfg, text));
    CallsFollowLines(cfg, h, text);
    CallsFromLines(cfg.syntax.allowNoValue, st.error, ms, st.lineno);
    forall i | 0 <= i < |ms|
      ensures Clean(LastName(ms[..i])) && NameAt(ms[..i]) == Take(LastName(ms[..i]), MAX_NAME - 1)
    {
      NameIsCut(ms[..i]);
    }
  }

  lemma {:induction false} ValueCallsOnly(error: nat, ms: seq<Line>)
    ensures forall c :: c in LineCalls(false, error, ms) ==> c.value.Some?
  {
    if ms != [] {
      ValueCallsOnly(error, ms[..|ms| - 1]);
    }
  }

  /** With values required, no call lacks one. */
  lemma {:induction false} ValuesPresent(cfg: Config, h: Handler, text: string)
    requires cfg.Valid() && !cfg.syntax.allowNoValue
    ensures forall c :: c in Parse(cfg, h, text).calls ==> c.value.Some?
  {
    var st := Parse(cfg, h, text);
    CallsFollowLines(cfg, h, text);
    ValueCallsOnly(st.error, MeaningsOf(cfg, text)[..st.lineno]);
  }
}
