/** The lines of an INI text by their layout: every line has one of a few shapes, and its shape says what
  * it means. The shapes are those that the documentation describes, written with characters. */
module Grammar {
  import opened Text
  import opened Ini
  import opened Reader
  import opened Runs

  /** The trimmed text of a line. `rest` is what follows behind the last part that matters. */
  datatype Shape =
    | EmptyLine
    | Remark(text: string)
    | Title(section: string, rest: string)
    | OpenTitle(body: string, rest: string)
    | Setting(name: string, gap: string, sep: char, lead: string, value: string, trail: string, rest: string)
    | Bare(name: string, gap: string, rest: string)

  function ShapeText(sh: Shape): string {
    match sh
    case EmptyLine => ""
    case Remark(text) => text
    case Title(section, rest) => "[" + section + "]" + rest
    case OpenTitle(body, rest) => "[" + body + rest
    case Setting(name, gap, sep, lead, value, trail, rest) => name + gap + [sep] + (lead + value + trail + rest)
    case Bare(name, gap, rest) => name + gap + rest
  }

  /** No inline comment starts in `s`: no prefix right behind a space. */
  predicate Uncommented(syn: Syntax, s: string) {
    syn.allowInline ==> forall i :: 0 < i < |s| && IsSpace(s[i - 1]) ==> s[i] !in syn.inlinePrefixes
  }

  /** `rest`, right behind `s`, is an inline comment or nothing. */
  predicate CommentOrEnd(syn: Syntax, s: string, rest: string) {
    rest != "" ==> syn.allowInline && rest[0] in syn.inlinePrefixes && s != "" && IsSpace(s[|s| - 1])
  }

  predicate Without(s: string, chars: string) {
    forall c :: c in s ==> c !in chars
  }

  /** The text starts neither a comment nor a section. */
  predicate PlainStart(syn: Syntax, t: string) {
    t != "" && t[0] !in syn.startPrefixes && t[0] != '['
  }

  predicate WellFormed(syn: Syntax, sh: Shape) {
    match sh
    case EmptyLine => true
    case Remark(text) => text != "" && text[0] in syn.startPrefixes
    case Title(section, _) => '[' !in syn.startPrefixes && Without(section, "]") && Uncommented(syn, section)
    case OpenTitle(body, rest) =>
      && '[' !in syn.startPrefixes && Without(body, "]") && Uncommented(syn, body)
      && CommentOrEnd(syn, body, rest) && (rest == "" || rest[0] != ']')
    case Setting(name, gap, sep, lead, value, trail, rest) =>
      && PlainStart(syn, ShapeText(sh)) && sep in "=:"
      && Trimmed(name) && AllSpace(gap) && Without(name + gap, "=:") && Uncommented(syn, name + gap)
      && AllSpace(lead) && Trimmed(value) && AllSpace(trail)
      && Uncommented(syn, lead + value + trail) && CommentOrEnd(syn, lead + value + trail, rest)
    case Bare(name, gap, rest) =>
      && PlainStart(syn, ShapeText(sh))
      && Trimmed(name) && AllSpace(gap) && Without(name + gap, "=:") && Uncommented(syn, name + gap)
      && CommentOrEnd(syn, name + gap, rest) && (rest == "" || rest[0] !in "=:")
  }

  function Says(sh: Shape): Line {
    match sh
    case EmptyLine => Comment
    case Remark(_) => Comment
    case Title(section, _) => Header(section)
    case OpenTitle(_, _) => OpenHeader
    case Setting(name, _, _, _, value, _, _) => Pair(name, value)
    case Bare(name, _, _) => NoValue(name)
  }

  /** A whole line: a byte-order mark, spaces, its text, spaces. The newline is one of the spaces. */
  datatype Layout = Layout(bom: bool, lead: string, shape: Shape, trail: string)

  function LayoutText(l: Layout): string {
    (if l.bom then "\U{EF}\U{BB}\U{BF}" else "") + (l.lead + ShapeText(l.shape) + l.trail)
  }

  predicate WellLaid(syn: Syntax, first: bool, l: Layout) {
    && WellFormed(syn, l.shape) && Trimmed(ShapeText(l.shape)) && AllSpace(l.lead) && AllSpace(l.trail)
    && (l.bom <==> first && syn.allowBom && "\U{EF}\U{BB}\U{BF}" <= LayoutText(l))
  }

  /** Below an open name, an indented line continues the value, unless it is a comment. */
  function LayoutSays(syn: Syntax, open: bool, l: Layout): Line {
    if syn.allowMultiline && open && (l.bom || l.lead != "") && Says(l.shape) != Comment
    then Continuation(ShapeText(l.shape))
    else Says(l.shape)
  }

  /** The white-space characters of the C locale. */
  lemma {:induction false} SpacesAre(c: char)
    ensures IsSpace(c) <==> c in [' ', '\t', '\n', '\U{0B}', '\U{0C}', '\r']
  {
  }

  // ---- What a shape means

  /** A search ends where nothing stopped it before: at a character that is looked for, at an inline
    * comment, or at the end. */
  lemma {:induction false} FindEnd(syn: Syntax, s: string, rest: string, chars: string)
    requires Without(s, chars) && Uncommented(syn, s)
    requires CommentOrEnd(syn, s, rest) || rest[0] in chars
    ensures Find(syn, s + rest, chars) == |s|
  {
    var t := s + rest;
    assert forall j :: 0 <= j < |s| ==> t[j] == s[j] && !StopsAt(syn, t, chars, j);
    assert rest != "" ==> t[|s|] == rest[0];
    FindFromIs(syn, t, chars, 0, |s|);
  }

  lemma {:induction false} TitleSays(syn: Syntax, section: string, rest: string)
    requires WellFormed(syn, Title(section, rest))
    ensures ClassifyText(syn, "[" + section + "]" + rest) == Header(section)
  {
    var t := "[" + section + "]" + rest;
    assert t[1..] == section + ("]" + rest);
    FindEnd(syn, section, "]" + rest, "]");
    assert t[1..1 + |section|] == section;
  }

  lemma {:induction false} OpenTitleSays(syn: Syntax, body: string, rest: string)
    requires WellFormed(syn, OpenTitle(body, rest))
    ensures ClassifyText(syn, "[" + body + rest) == OpenHeader
  {
    var t := "[" + body + rest;
    assert t[1..] == body + rest;
    FindEnd(syn, body, rest, "]");
    if rest != "" { assert t[1 + |body|] == rest[0]; }
  }

  /** The value is what stands between the spaces, in front of an inline comment. */
  lemma {:induction false} ValueSays(syn: Syntax, lead: string, value: string, trail: string, rest: string)
    requires AllSpace(lead) && Trimmed(value) && AllSpace(trail)
    requires Uncommented(syn, lead + value + trail) && CommentOrEnd(syn, lead + value + trail, rest)
    ensures ValueText(syn, lead + value + trail + rest) == value
  {
    var s := lead + value + trail;
    TrimIs(lead, value, trail);
    if syn.allowInline {
      FindEnd(syn, s, rest, "");
      assert (s + rest)[..|s|] == s;
    } else {
      assert s + rest == s;
    }
  }

  lemma {:induction false} NameSays(name: string, gap: string)
    requires Trimmed(name) && AllSpace(gap)
    ensures RStrip(name + gap) == name
  {
    RStripAppend(name, gap);
    RStripStops(name);
  }

  lemma {:induction false} SettingSays(syn: Syntax, sh: Shape)
    requires sh.Setting? && WellFormed(syn, sh)
    ensures ClassifyText(syn, ShapeText(sh)) == Pair(sh.name, sh.value)
  {
    var s, v := sh.name + sh.gap, sh.lead + sh.value + sh.trail + sh.rest;
    var t := s + [sh.sep] + v;
    assert t == s + ([sh.sep] + v) && t[..|s|] == s && t[|s|] == sh.sep && t[|s| + 1..] == v;
    FindEnd(syn, s, [sh.sep] + v, "=:");
    NameSays(sh.name, sh.gap);
    ValueSays(syn, sh.lead, sh.value, sh.trail, sh.rest);
  }

  lemma {:induction false} BareSays(syn: Syntax, sh: Shape)
    requires sh.Bare? && WellFormed(syn, sh)
    ensures ClassifyText(syn, ShapeText(sh)) == NoValue(sh.name)
  {
    var s := sh.name + sh.gap;
    var t := s + sh.rest;
    assert t[..|s|] == s;
    FindEnd(syn, s, sh.rest, "=:");
    NameSays(sh.name, sh.gap);
    if sh.rest != "" { assert t[|s|] == sh.rest[0]; }
  }

  lemma {:induction false} ShapeSays(syn: Syntax, sh: Shape)
    requires WellFormed(syn, sh)
    ensures ClassifyText(syn, ShapeText(sh)) == Says(sh)
    ensures IsComment(syn, ShapeText(sh)) <==> Says(sh) == Comment
  {
    match sh
    case EmptyLine =>
    case Remark(text) =>
    case Title(section, rest) => TitleSays(syn, section, rest);
    case OpenTitle(body, rest) => OpenTitleSays(syn, body, rest);
    case Setting(_, _, _, _, _, _, _) => SettingSays(syn, sh);
    case Bare(_, _, _) => BareSays(syn, sh);
  }

  /** What the parser makes of a line is what its layout says. */
  lemma {:induction false} LayoutDecides(syn: Syntax, first: bool, open: bool, l: Layout)
    requires WellLaid(syn, first, l)
    ensures Classify(syn, first, open, LayoutText(l)) == LayoutSays(syn, open, l)
  {
    var t, s := LayoutText(l), l.lead + ShapeText(l.shape) + l.trail;
    assert t[BomLen(syn, first, t)..] == s;
    TrimIs(l.lead, ShapeText(l.shape), l.trail);
    ShapeSays(syn, l.shape);
    if !l.bom && ShapeText(l.shape) != "" {
      assert t[0] == if l.lead != "" then l.lead[0] else ShapeText(l.shape)[0];
      assert l.lead != "" ==> l.lead[0] in l.lead;
    }
  }

  // ---- Every line has a layout

  lemma {:induction false} FindCuts(syn: Syntax, s: string, chars: string) returns (before: string, rest: string)
    ensures s == before + rest && |before| == Find(syn, s, chars)
    ensures Without(before, chars) && Uncommented(syn, before)
    ensures CommentOrEnd(syn, before, rest) || rest[0] in chars
  {
    var n := Find(syn, s, chars);
    FindFromSpec(syn, s, chars, 0);
    before, rest := s[..n], s[n..];
    assert forall j :: 0 <= j < n ==> before[j] == s[j] && !StopsAt(syn, s, chars, j);
  }

  lemma {:induction false} EveryTitle(syn: Syntax, t: string) returns (sh: Shape)
    requires t != "" && t[0] == '[' && '[' !in syn.startPrefixes
    ensures WellFormed(syn, sh) && ShapeText(sh) == t
  {
    var body, rest := FindCuts(syn, t[1..], "]");
    assert t == "[" + body + rest;
    if rest != "" && rest[0] == ']' {
      sh := Title(body, rest[1..]);
      assert rest == "]" + rest[1..];
    } else {
      sh := OpenTitle(body, rest);
    }
  }

  lemma {:induction false} EveryValue(syn: Syntax, v: string) returns (lead: string, value: string, trail: string, rest: string)
    ensures v == lead + value + trail + rest && AllSpace(lead) && Trimmed(value) && AllSpace(trail)
    ensures Uncommented(syn, lead + value + trail) && CommentOrEnd(syn, lead + value + trail, rest)
  {
    var body := v;
    rest := "";
    if syn.allowInline { body, rest := FindCuts(syn, v, ""); }
    lead, trail := TrimSplit(body);
    value := Trim(body);
  }

  lemma {:induction false} EverySetting(syn: Syntax, t: string) returns (sh: Shape)
    requires Trimmed(t) && PlainStart(syn, t)
    ensures WellFormed(syn, sh) && ShapeText(sh) == t
  {
    var s, rest := FindCuts(syn, t, "=:");
    var gap := RStripSplit(s);
    var name := RStrip(s);
    assert name != "" ==> name[0] == s[0] == t[0];
    if rest != "" && rest[0] in "=:" {
      var lead, value, trail, tail := EveryValue(syn, rest[1..]);
      sh := Setting(name, gap, rest[0], lead, value, trail, tail);
      assert t == name + gap + [rest[0]] + rest[1..];
    } else {
      sh := Bare(name, gap, rest);
    }
  }

  /** The shapes cover every text, so they say what every line means. */
  lemma {:induction false} EveryShape(syn: Syntax, t: string) returns (sh: Shape)
    requires Trimmed(t)
    ensures WellFormed(syn, sh) && ShapeText(sh) == t
  {
    if t == "" {
      sh := EmptyLine;
    } else if t[0] in syn.startPrefixes {
      sh := Remark(t);
    } else if t[0] == '[' {
      sh := EveryTitle(syn, t);
    } else {
      sh := EverySetting(syn, t);
    }
  }

  lemma {:induction false} EveryLayout(syn: Syntax, first: bool, line: string) returns (l: Layout)
    ensures WellLaid(syn, first, l) && LayoutText(l) == line
  {
    var n := BomLen(syn, first, line);
    var lead, trail := TrimSplit(line[n..]);
    var sh := EveryShape(syn, Trim(line[n..]));
    l := Layout(n > 0, lead, sh, trail);
    assert line == line[..n] + line[n..] && line[..n] == if n > 0 then BOM else "";
  }
}
