/** A writer for INI texts, and the proof that the parser reads back exactly what was written. */
module Writer {
  import opened Text
  import opened Ini
  import opened Reader
  import opened Runs
  import opened InlineComments
  import opened Delivered
  import opened Grammar

  /** What a document may contain: section headers, pairs, and further lines of a pair's value. */
  datatype Stmt =
    | HeaderStmt(section: string)
    | PairStmt(name: string, value: string)
    | MoreStmt(text: string)

  function PrintLine(s: Stmt): string {
    match s
    case HeaderStmt(section) => "[" + section + "]"
    case PairStmt(name, value) => name + "=" + value
    case MoreStmt(text) => " " + text
  }

  function Print(doc: seq<Stmt>): string {
    if doc == [] then "" else PrintLine(doc[0]) + "\n" + Print(doc[1..])
  }

  /** The calls a reader of the document expects. */
  function Expected(section: string, open: string, doc: seq<Stmt>): seq<Call>
    decreases |doc|
  {
    if doc == [] then [] else
      match doc[0]
      case HeaderStmt(section') => Expected(section', "", doc[1..])
      case PairStmt(name, value) =>
        [Call(section, name, Some(value))] + Expected(section, Take(name, MAX_NAME - 1), doc[1..])
      case MoreStmt(text) => [Call(section, open, Some(text))] + Expected(section, open, doc[1..])
  }

  /** The statements that the syntax can express; `open` when a pair is open for more lines. */
  predicate Writable(syn: Syntax, open: bool, s: Stmt) {
    match s
    case HeaderStmt(section) =>
      && '[' !in syn.startPrefixes && |section| <= MAX_SECTION - 1
      && NEWLINE !in section && Without(section, "]") && Uncommented(syn, section)
    case PairStmt(name, value) =>
      && Clean(name) && Clean(value) && PlainStart(syn, name + "=")
      && Without(name, "=:") && Uncommented(syn, name) && Uncommented(syn, value)
    case MoreStmt(text) =>
      syn.allowMultiline && open && Clean(text) && text != "" && text[0] !in syn.startPrefixes
  }

  predicate WritableDoc(syn: Syntax, open: bool, doc: seq<Stmt>)
    decreases |doc|
  {
    doc == []
    || (Writable(syn, open, doc[0]) && WritableDoc(syn, Opens(open, Meaning(doc[0])), doc[1..]))
  }

  function Meaning(s: Stmt): Line {
    match s
    case HeaderStmt(section) => Header(section)
    case PairStmt(name, value) => Pair(name, value)
    case MoreStmt(text) => Continuation(text)
  }

  predicate Fits(max: int, doc: seq<Stmt>) {
    forall s :: s in doc ==> |PrintLine(s)| + 1 <= max - 1
  }

  /** A printed header or pair has the plainest layout. */
  function ShapeOf(s: Stmt): Shape
    requires !s.MoreStmt?
  {
    match s
    case HeaderStmt(section) => Title(section, "")
    case PairStmt(name, value) => Setting(name, "", '=', "", value, "", "")
  }

  lemma {:induction false} ShapePrints(syn: Syntax, open: bool, s: Stmt)
    requires Writable(syn, open, s) && !s.MoreStmt?
    ensures WellFormed(syn, ShapeOf(s)) && Trimmed(PrintLine(s)) && ShapeText(ShapeOf(s)) == PrintLine(s)
  {
    var t := PrintLine(s);
    if s.PairStmt? {
      assert s.name + "" == s.name && "" + s.value + "" == s.value;
      assert t[0] == (s.name + "=")[0];
      assert t[|t| - 1] == if s.value == "" then '=' else s.value[|s.value| - 1];
    }
  }

  /** A printed line means what was printed. */
  lemma {:induction false} PrintedMeaning(syn: Syntax, first: bool, open: bool, s: Stmt)
    requires Writable(syn, open, s)
    requires first && syn.allowBom ==> !(BOM <= PrintLine(s))
    ensures Classify(syn, first, open, PrintLine(s)) == Meaning(s)
  {
    var l;
    if s.MoreStmt? {
      var sh := EveryShape(syn, s.text);
      ShapeSays(syn, sh);
      l := Layout(false, " ", sh, "");
    } else {
      ShapePrints(syn, open, s);
      l := Layout(false, "", ShapeOf(s), "");
    }
    assert LayoutText(l) == PrintLine(s);
    LayoutDecides(syn, first, open, l);
  }

  // ---- Nothing else is read back

  /** A line that is read as a pair and is as long as its printed form is printed like that. */
  lemma {:induction false} PairOnlyIf(syn: Syntax, l: Layout, name: string, value: string)
    requires WellLaid(syn, false, l) && l.shape.Setting? && l.shape.name == name && l.shape.value == value
    requires LayoutText(l) == name + "=" + value
    ensures PlainStart(syn, name + "=") && Without(name, "=:") && Uncommented(syn, name) && Uncommented(syn, value)
    ensures Trimmed(name) && Trimmed(value)
  {
    var sh := l.shape;
    assert |LayoutText(l)| == |l.lead| + |ShapeText(sh)| + |l.trail|;
    assert |sh.gap| == |sh.lead| == |sh.trail| == |sh.rest| == |l.lead| == |l.trail| == 0;
    assert name + sh.gap == name && sh.lead + value + sh.trail == value;
    assert ShapeText(sh) == name + "=" + value && ShapeText(sh)[0] == (name + "=")[0];
  }

  /** A statement is read back as what was printed exactly when the syntax can express it. */
  lemma {:induction false} ReadBackIffWritable(syn: Syntax, open: bool, s: Stmt)
    requires NEWLINE !in PrintLine(s)
    ensures Classify(syn, false, open, PrintLine(s)) == Meaning(s)
            && (s.HeaderStmt? ==> |s.section| <= MAX_SECTION - 1)
            <==> Writable(syn, open, s)
  {
    if Writable(syn, open, s) {
      PrintedMeaning(syn, false, open, s);
    }
    if Classify(syn, false, open, PrintLine(s)) == Meaning(s) && (s.HeaderStmt? ==> |s.section| <= MAX_SECTION - 1) {
      var l := EveryLayout(syn, false, PrintLine(s));
      LayoutDecides(syn, false, open, l);
      WritableIf(syn, open, s, l);
    }
  }

  lemma {:induction false} WritableIf(syn: Syntax, open: bool, s: Stmt, l: Layout)
    requires WellLaid(syn, false, l) && LayoutText(l) == PrintLine(s) && LayoutSays(syn, open, l) == Meaning(s)
    requires NEWLINE !in PrintLine(s) && (s.HeaderStmt? ==> |s.section| <= MAX_SECTION - 1)
    ensures Writable(syn, open, s)
  {
    match s
    case HeaderStmt(section) => assert forall c :: c in section ==> c in PrintLine(s);
    case PairStmt(name, value) =>
      PairOnlyIf(syn, l, name, value);
      assert forall c :: c in name || c in value ==> c in PrintLine(s);
    case MoreStmt(text) =>
      ShapeSays(syn, l.shape);
      assert forall c :: c in text ==> c in PrintLine(s);
  }

  lemma {:induction false} PrintedNewline(s: Stmt, syn: Syntax, open: bool)
    requires Writable(syn, open, s)
    ensures NEWLINE !in PrintLine(s) && PrintLine(s) != ""
  {
  }

  /** Reading back from any error-free state, with a handler that accepts every call. */
  lemma {:induction false} ReadBack(cfg: Config, h: Handler, st: State, doc: seq<Stmt>)
    requires cfg.Valid() && forall calls :: h(calls)
    requires WritableDoc(cfg.syntax, st.prevName != "", doc) && Fits(cfg.Capacity(), doc)
    requires st.error == 0
    requires doc != [] && st.lineno == 0 && cfg.syntax.allowBom ==> !(BOM <= PrintLine(doc[0]))
    ensures var end := ParseFrom(cfg, h, st, Print(doc));
            end.error == 0 && end.calls == st.calls + Expected(st.section, st.prevName, doc)
    decreases |doc|
  {
    if doc == [] {
    } else {
      var s, rest := doc[0], doc[1..];
      var line := PrintLine(s);
      PrintedNewline(s, cfg.syntax, st.prevName != "");
      assert s in doc;
      assert IsLine(line + "\n", cfg.Capacity(), false);
      LineFirst(cfg, h, st, line + "\n", Print(rest));
      NewlineIgnored(cfg.syntax, st.lineno == 0, st.prevName != "", line);
      PrintedMeaning(cfg.syntax, st.lineno == 0, st.prevName != "", s);
      ReadStep(cfg.syntax, h, st, s);
      ReadBack(cfg, h, Step(cfg.syntax, h, st, line + "\n"), rest);
      ExpectedNext(st.calls, st.section, st.prevName, doc);
    }
  }

  /** One line read back by an accepting handler. */
  lemma {:induction false} ReadStep(syn: Syntax, h: Handler, st: State, s: Stmt)
    requires st.error == 0 && forall calls :: h(calls)
    requires LineOf(syn, st, PrintLine(s) + "\n") == Meaning(s)
    requires s.HeaderStmt? ==> |s.section| <= MAX_SECTION - 1
    ensures var st' := Step(syn, h, st, PrintLine(s) + "\n");
            && st'.error == 0 && st'.lineno == st.lineno + 1
            && (st'.prevName != "" <==> Opens(st.prevName != "", Meaning(s)))
            && (st'.section, st'.prevName, st'.calls) == After(st.section, st.prevName, st.calls, s)
  {
    ApplyAccepted(syn, h, st.(lineno := st.lineno + 1), s);
  }

  lemma {:induction false} ApplyAccepted(syn: Syntax, h: Handler, st: State, s: Stmt)
    requires st.error == 0 && forall calls :: h(calls)
    requires s.HeaderStmt? ==> |s.section| <= MAX_SECTION - 1
    ensures var st' := Apply(syn, h, st, Meaning(s));
            && st'.error == 0 && st'.lineno == st.lineno
            && (st'.prevName != "" <==> Opens(st.prevName != "", Meaning(s)))
            && (st'.section, st'.prevName, st'.calls) == After(st.section, st.prevName, st.calls, s)
  {
  }

  function After(section: string, open: string, calls: seq<Call>, s: Stmt): (string, string, seq<Call>) {
    match s
    case HeaderStmt(section') => (section', "", calls)
    case PairStmt(name, value) => (section, Take(name, MAX_NAME - 1), calls + [Call(section, name, Some(value))])
    case MoreStmt(text) => (section, open, calls + [Call(section, open, Some(text))])
  }

  lemma {:induction false} ExpectedNext(calls: seq<Call>, section: string, open: string, doc: seq<Stmt>)
    requires doc != []
    ensures var (section', open', calls') := After(section, open, calls, doc[0]);
            calls' + Expected(section', open', doc[1..]) == calls + Expected(section, open, doc)
  {
  }

  /** Printing and parsing: for every document that the syntax can express and whose lines fit the
    * buffer, the handler receives the original sections, names, values and value lines in order, and
    * the parser returns 0. */
  lemma {:induction false} RoundTrip(cfg: Config, h: Handler, doc: seq<Stmt>)
    requires cfg.Valid() && forall calls :: h(calls)
    requires WritableDoc(cfg.syntax, false, doc) && Fits(cfg.Capacity(), doc)
    requires doc != [] && cfg.syntax.allowBom ==> !(BOM <= PrintLine(doc[0]))
    ensures Parse(cfg, h, Print(doc)).error == 0
    ensures Parse(cfg, h, Print(doc)).calls == Expected("", "", doc)
  {
    LinesAreChunks(cfg, Print(doc));
    ReadBack(cfg, h, INITIAL, doc);
    assert [] + Expected("", "", doc) == Expected("", "", doc);
  }

  // ---- The name of a continuation line

  /** The documentation has a continuation line call the handler with the same name as its pair. It
    * does exactly when the name has at most 49 characters; a longer one is delivered in full with the
    * pair, and cut with the continuation. */
  lemma {:induction false} SameNameIffItFits(cfg: Config, h: Handler, name: string, value: string, text: string)
    requires cfg.Valid() && forall calls :: h(calls)
    requires var doc := [PairStmt(name, value), MoreStmt(text)];
             WritableDoc(cfg.syntax, false, doc) && Fits(cfg.Capacity(), doc)
             && (cfg.syntax.allowBom ==> !(BOM <= PrintLine(doc[0])))
    ensures var calls := Parse(cfg, h, Print([PairStmt(name, value), MoreStmt(text)])).calls;
            && |calls| == 2 && calls[0].name == name && calls[1].name == Take(name, MAX_NAME - 1)
            && (calls[1].name == calls[0].name <==> |name| <= MAX_NAME - 1)
  {
    var doc := [PairStmt(name, value), MoreStmt(text)];
    RoundTrip(cfg, h, doc);
    assert doc[1..] == [MoreStmt(text)] && [MoreStmt(text)][1..] == [];
    assert Expected("", Take(name, MAX_NAME - 1), [MoreStmt(text)])
           == [Call("", Take(name, MAX_NAME - 1), Some(text))];
  }

  function LongName(): string {
    seq(50, _ => 'n')
  }

  /** With the default flags, 50 characters `n` as a name, "v" as its value and one more line "w": the
    * second call has another name than the first. */
  lemma {:induction false} LongNameIsCut(h: Handler)
    requires forall calls :: h(calls)
    ensures var calls := Parse(DEFAULT_CONFIG, h, Print([PairStmt(LongName(), "v"), MoreStmt("w")])).calls;
            |calls| == 2 && calls[0].name != calls[1].name
  {
    var name, doc := LongName(), [PairStmt(LongName(), "v"), MoreStmt("w")];
    assert forall c :: c in name ==> c == 'n';
    assert doc[1..] == [MoreStmt("w")] && [MoreStmt("w")][1..] == [];
    assert (name + "=")[0] == 'n' && PrintLine(doc[0])[0] == 'n';
    assert WritableDoc(DEFAULT_SYNTAX, true, [MoreStmt("w")]);
    SameNameIffItFits(DEFAULT_CONFIG, h, name, "v", "w");
  }
}
