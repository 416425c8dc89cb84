/** Laws of whole parses that follow from what single lines mean: a line is read as its layout says, and
  * line ends of either kind are the same. */
module LineLaws {
  import opened Text
  import opened Ini
  import opened Reader
  import opened Runs
  import opened InlineComments
  import opened Grammar

  /** A line means exactly what one of its layouts says. */
  lemma {:induction false} LineMeansIff(syn: Syntax, first: bool, open: bool, line: string, m: Line)
    ensures Classify(syn, first, open, line) == m
            <==> exists l :: WellLaid(syn, first, l) && LayoutText(l) == line && LayoutSays(syn, open, l) == m
  {
    var l := EveryLayout(syn, first, line);
    LayoutDecides(syn, first, open, l);
    forall l' | WellLaid(syn, first, l') && LayoutText(l') == line ensures LayoutSays(syn, open, l') == Classify(syn, first, open, line) {
      LayoutDecides(syn, first, open, l');
    }
  }

  /** The newline at its end belongs to the layout of a line. */
  lemma {:induction false} WithNewline(syn: Syntax, first: bool, l: Layout)
    requires WellLaid(syn, first, l)
    ensures var l' := l.(trail := l.trail + "\n");
            && WellLaid(syn, first, l') && LayoutText(l') == LayoutText(l) + "\n"
            && forall open :: LayoutSays(syn, open, l') == LayoutSays(syn, open, l)
  {
    var mark, l' := if l.bom then BOM else "", l.(trail := l.trail + "\n");
    assert LayoutText(l') == LayoutText(l) + "\n";
    BomBeforeSpace(LayoutText(l), "\n");
  }

  lemma {:induction false} LayoutWithNewline(syn: Syntax, first: bool, open: bool, l: Layout)
    requires WellLaid(syn, first, l)
    ensures Classify(syn, first, open, LayoutText(l) + "\n") == LayoutSays(syn, open, l)
  {
    WithNewline(syn, first, l);
    LayoutDecides(syn, first, open, l.(trail := l.trail + "\n"));
  }

  lemma {:induction false} ReadAs(cfg: Config, h: Handler, a: string, s: string, m: Line, b: string)
    requires cfg.Valid() && WholeLines(a) && FitsAsLine(cfg, s)
    requires LineOf(cfg.syntax, Parse(cfg, h, a), s + "\n") == m
    ensures var st := Parse(cfg, h, a);
            Parse(cfg, h, a + (s + "\n" + b))
            == if Stopped(cfg.stopOnFirstError, st) then st
               else ParseFrom(cfg, h, Apply(cfg.syntax, h, st.(lineno := st.lineno + 1), m), b)
  {
    var st := Parse(cfg, h, a);
    StepAs(cfg.syntax, h, st, s + "\n", m);
    ReadLine(cfg, h, a, s, b);
  }

  lemma {:induction false} StepAs(syn: Syntax, h: Handler, st: State, line: string, m: Line)
    requires LineOf(syn, st, line) == m
    ensures Step(syn, h, st, line) == Apply(syn, h, st.(lineno := st.lineno + 1), m)
  {
  }

  /** A line that fits the buffer, wherever it stands, does to the parser's state what its layout says. */
  lemma {:induction false} LineIsRead(cfg: Config, h: Handler, a: string, l: Layout, b: string)
    requires cfg.Valid() && WholeLines(a) && FitsAsLine(cfg, LayoutText(l))
    requires WellLaid(cfg.syntax, Parse(cfg, h, a).lineno == 0, l)
    ensures var st := Parse(cfg, h, a);
            var next := Apply(cfg.syntax, h, st.(lineno := st.lineno + 1), LayoutSays(cfg.syntax, st.prevName != "", l));
            Parse(cfg, h, a + (LayoutText(l) + "\n" + b))
            == if Stopped(cfg.stopOnFirstError, st) then st else ParseFrom(cfg, h, next, b)
  {
    var st := Parse(cfg, h, a);
    LayoutWithNewline(cfg.syntax, st.lineno == 0, st.prevName != "", l);
    ReadAs(cfg, h, a, LayoutText(l), LayoutSays(cfg.syntax, st.prevName != "", l), b);
  }

  /** Lines that differ only in layout can be exchanged: the whole parse ends in the same state. */
  lemma {:induction false} LayoutInsensitivity(cfg: Config, h: Handler, a: string, l: Layout, l': Layout, b: string)
    requires cfg.Valid() && WholeLines(a) && FitsAsLine(cfg, LayoutText(l)) && FitsAsLine(cfg, LayoutText(l'))
    requires var st := Parse(cfg, h, a);
             && WellLaid(cfg.syntax, st.lineno == 0, l) && WellLaid(cfg.syntax, st.lineno == 0, l')
             && LayoutSays(cfg.syntax, st.prevName != "", l) == LayoutSays(cfg.syntax, st.prevName != "", l')
    ensures Parse(cfg, h, a + (LayoutText(l) + "\n" + b)) == Parse(cfg, h, a + (LayoutText(l') + "\n" + b))
  {
    LineIsRead(cfg, h, a, l, b);
    LineIsRead(cfg, h, a, l', b);
  }

  /** The default flags: lines starting with ';' or '#' are comments, an inline comment starts with ';',
    * indented lines continue a value, a mark may be in front, values are required, and a line may take
    * 199 bytes. Section names and the names of continuation lines are cut to 49 bytes. */
  lemma {:induction false} DefaultsMean(c: char, s: string)
    ensures IsComment(DEFAULT_SYNTAX, [c] + s) <==> c == ';' || c == '#'
    ensures CommentOrEnd(DEFAULT_SYNTAX, " ", [c] + s) <==> c == ';'
    ensures LayoutSays(DEFAULT_SYNTAX, true, Layout(true, "", Bare("x", "", ""), "")) == Continuation("x")
    ensures Apply(DEFAULT_SYNTAX, calls => true, INITIAL.(lineno := 1), NoValue(s)).error == 1
    ensures DEFAULT_CONFIG.Capacity() == 200 && !DEFAULT_CONFIG.stopOnFirstError
    ensures Apply(DEFAULT_SYNTAX, calls => true, INITIAL, Header(s)).section == Take(s, 49)
    ensures Apply(DEFAULT_SYNTAX, calls => true, INITIAL, Pair(s, "")).prevName == Take(s, 49)
  {
    SpacesAre(' ');
  }

  // ---- Line ends

  /** Both kinds of line end mean the same behind any text. */
  lemma {:induction false} CrlfIsNewline(syn: Syntax, first: bool, open: bool, s: string)
    ensures Classify(syn, first, open, s + "\r\n") == Classify(syn, first, open, s + "\n")
  {
    SpacesAre('\r');
    SpacesBehind(syn, first, open, s, "\r\n");
    SpacesBehind(syn, first, open, s, "\n");
  }

  /** The lines, each with this end. */
  function Ended(lines: seq<string>, end: string): string {
    if lines == [] then "" else lines[0] + end + Ended(lines[1..], end)
  }

  lemma {:induction false} EndedFrom(cfg: Config, h: Handler, st: State, lines: seq<string>, b: string)
    requires cfg.Valid()
    requires forall s :: s in lines ==> NEWLINE !in s && |s| + 2 <= cfg.Capacity() - 1
    ensures ParseFrom(cfg, h, st, Ended(lines, "\r\n") + b) == ParseFrom(cfg, h, st, Ended(lines, "\n") + b)
    decreases |lines|
  {
    if Stopped(cfg.stopOnFirstError, st) {
      StoppedStays(cfg.syntax, cfg.stopOnFirstError, h, st, Chunks(Ended(lines, "\r\n") + b, cfg.Capacity()));
      StoppedStays(cfg.syntax, cfg.stopOnFirstError, h, st, Chunks(Ended(lines, "\n") + b, cfg.Capacity()));
    } else if lines != [] {
      var s, rest := lines[0], lines[1..];
      assert s in lines;
      CrlfIsNewline(cfg.syntax, st.lineno == 0, st.prevName != "", s);
      FirstEnded(cfg, h, st, lines, "\r\n", b);
      FirstEnded(cfg, h, st, lines, "\n", b);
      EndedFrom(cfg, h, Step(cfg.syntax, h, st, s + "\n"), rest, b);
    }
  }

  lemma {:induction false} FirstEnded(cfg: Config, h: Handler, st: State, lines: seq<string>, end: string, b: string)
    requires cfg.Valid() && !Stopped(cfg.stopOnFirstError, st) && end in ["\r\n", "\n"]
    requires lines != [] && NEWLINE !in lines[0] && |lines[0]| + 2 <= cfg.Capacity() - 1
    ensures ParseFrom(cfg, h, st, Ended(lines, end) + b)
            == ParseFrom(cfg, h, Step(cfg.syntax, h, st, lines[0] + end), Ended(lines[1..], end) + b)
  {
    var line, rest := lines[0] + end, Ended(lines[1..], end);
    Assoc(line, rest, b);
    LineFirst(cfg, h, st, line, rest + b);
  }

  /** A text whose lines end in CR LF, and leave room for it, is parsed like the same text with LF: the
    * same calls, section, open name, error and line count, whatever follows. */
  lemma {:induction false} CrlfInsensitivity(cfg: Config, h: Handler, a: string, lines: seq<string>, b: string)
    requires cfg.Valid() && WholeLines(a)
    requires forall s :: s in lines ==> NEWLINE !in s && |s| + 2 <= cfg.Capacity() - 1
    ensures Parse(cfg, h, a + (Ended(lines, "\r\n") + b)) == Parse(cfg, h, a + (Ended(lines, "\n") + b))
  {
    ParseInTwoParts(cfg, h, a, Ended(lines, "\r\n") + b);
    ParseInTwoParts(cfg, h, a, Ended(lines, "\n") + b);
    EndedFrom(cfg, h, Parse(cfg, h, a), lines, b);
  }
}
