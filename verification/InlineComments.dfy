/** Where a search stops, and why an inline comment behind a pair is never seen by the handler. */
module InlineComments {
  import opened Text
  import opened Ini
  import opened Reader
  import opened Runs

  /** Text behind a stop does not move it. */
  lemma {:induction false} FindAppend(syn: Syntax, s: string, u: string, chars: string)
    requires Find(syn, s, chars) < |s|
    ensures Find(syn, s + u, chars) == Find(syn, s, chars)
  {
    var n := Find(syn, s, chars);
    FindFromSpec(syn, s, chars, 0);
    assert forall j :: 0 <= j < n ==> (StopsAt(syn, s + u, chars, j) <==> StopsAt(syn, s, chars, j));
    FindFromIs(syn, s + u, chars, 0, n);
  }

  /** Without a stop in `s`, the search ends inside the spaces behind it or at the comment. */
  lemma {:induction false} FindComment(syn: Syntax, s: string, r: string, p: char, u: string)
    requires syn.allowInline && p in syn.inlinePrefixes
    requires r != "" && AllSpace(r) && Find(syn, s, "") == |s|
    ensures |s| <= Find(syn, s + (r + [p] + u), "") <= |s| + |r|
  {
    var t := s + (r + [p] + u);
    var n := Find(syn, t, "");
    FindFromSpec(syn, s, "", 0);
    FindFromSpec(syn, t, "", 0);
    assert t[|s| + |r|] == p && t[|s| + |r| - 1] == r[|r| - 1] && r[|r| - 1] in r;
    assert StopsAt(syn, t, "", |s| + |r|);
    if n < |s| {
      assert StopsAt(syn, s, "", n);
    }
  }

  /** The value of a pair is the same with and without the comment. */
  lemma {:induction false} ValueIgnoresComment(syn: Syntax, s: string, r: string, p: char, u: string)
    requires syn.allowInline && p in syn.inlinePrefixes
    requires r != "" && AllSpace(r)
    ensures ValueText(syn, s + (r + [p] + u)) == ValueText(syn, s)
  {
    var t, n := s + (r + [p] + u), Find(syn, s, "");
    if n < |s| {
      FindAppend(syn, s, r + [p] + u, "");
      assert t[..n] == s[..n];
    } else {
      FindComment(syn, s, r, p, u);
      var m := Find(syn, t, "") - |s|;
      assert s[..n] == s && t[..|s| + m] == "" + s + r[..m];
      assert forall c :: c in r[..m] ==> c in r;
      TrimPad("", s, r[..m]);
      SameTrim(s, "" + s + r[..m]);
    }
  }

  lemma {:induction false} SameTrim(s: string, t: string)
    requires Trim(s) == Trim(t)
    ensures RStrip(LSkip(s)) == RStrip(LSkip(t))
  {
    var _, _ := TrimSplit(s);
    var _, _ := TrimSplit(t);
  }

  /** A trimmed line that is a pair stays the same pair when a comment is put behind it. */
  lemma {:induction false} TextIgnoresComment(syn: Syntax, t: string, r: string, p: char, u: string)
    requires syn.allowInline && p in syn.inlinePrefixes
    requires r != "" && AllSpace(r) && ClassifyText(syn, t).Pair?
    ensures ClassifyText(syn, t + (r + [p] + u)) == ClassifyText(syn, t)
  {
    var e, v := Find(syn, t, "=:"), r + [p] + u;
    FindAppend(syn, t, v, "=:");
    assert (t + v)[0] == t[0] && (t + v)[e] == t[e];
    assert (t + v)[..e] == t[..e] && (t + v)[e + 1..] == t[e + 1..] + v;
    ValueIgnoresComment(syn, t[e + 1..], r, p, u);
  }

  /** Trimming a line with a comment keeps the text in front and everything up to the last visible
    * character of the comment. */
  lemma {:induction false} TrimWithComment(x: string, w: char, p: char, u: string) returns (r: string, u': string)
    requires Trim(x) != "" && IsSpace(w) && !IsSpace(p)
    ensures r != "" && AllSpace(r)
    ensures Trim(x + ([w, p] + u)) == Trim(x) + (r + [p] + u')
  {
    var l, r0 := TrimSplit(x);
    var y := [p] + u;
    var z := RStripSplit(y);
    RStripKeepsFirst(y);
    r, u' := r0 + [w], RStrip(y)[1..];
    var m := Trim(x) + (r + [p] + u');
    assert [p] + u' == RStrip(y);
    assert m[|m| - 1] == RStrip(y)[|RStrip(y)| - 1];
    TrimIs(l, m, z);
    CommentPieces(x, l, Trim(x), r0, w, p, u, u', z);
  }

  lemma {:induction false} CommentPieces(x: string, l: string, t: string, r0: string, w: char, p: char, u: string, u': string, z: string)
    requires x == l + t + r0 && [p] + u == [p] + u' + z
    ensures x + ([w, p] + u) == l + (t + (r0 + [w] + [p] + u')) + z
  {
    assert [w, p] + u == [w] + ([p] + u);
  }

  /** A byte-order mark has no spaces, so what follows a space does not make one. */
  lemma {:induction false} BomBeforeSpace(s: string, t: string)
    requires t == "" || IsSpace(t[0])
    ensures BOM <= s + t <==> BOM <= s
  {
    assert t != "" ==> (s + t)[|s|] == t[0];
  }

  /** The line as a whole: the comment changes nothing. */
  lemma {:induction false} LineIgnoresComment(syn: Syntax, first: bool, open: bool, s: string, w: char, p: char, u: string)
    requires syn.allowInline && p in syn.inlinePrefixes && IsSpace(w) && !IsSpace(p)
    requires Classify(syn, first, open, s).Pair?
    ensures Classify(syn, first, open, s + ([w, p] + u)) == Classify(syn, first, open, s)
  {
    var v := [w, p] + u;
    BomBeforeSpace(s, v);
    var n := BomLen(syn, first, s);
    DropAppend(s, v, n);
    StartIgnoresComment(syn, open && Indented(syn, first, s), s[n..], w, p, u);
  }

  lemma {:induction false} DropAppend(s: string, v: string, n: nat)
    requires s != "" && n <= |s|
    ensures (s + v)[n..] == s[n..] + v && (s + v)[0] == s[0]
  {
  }

  lemma {:induction false} StartIgnoresComment(syn: Syntax, inner: bool, x: string, w: char, p: char, u: string)
    requires syn.allowInline && p in syn.inlinePrefixes && IsSpace(w) && !IsSpace(p)
    requires Trim(x) != "" && ClassifyStart(syn, inner, Trim(x)).Pair?
    ensures ClassifyStart(syn, inner, Trim(x + ([w, p] + u))) == ClassifyStart(syn, inner, Trim(x))
  {
    var r, u' := TrimWithComment(x, w, p, u);
    TextIgnoresComment(syn, Trim(x), r, p, u');
    DropAppend(Trim(x), r + [p] + u', 0);
  }

  /** An inline comment behind a name/value pair does not reach the handler: with it or without it,
    * the whole parse ends in the same state. */
  lemma {:induction false} InlineCommentInsensitivity(cfg: Config, h: Handler, a: string, s: string, w: char, p: char, u: string, b: string)
    requires cfg.Valid() && WholeLines(a)
    requires cfg.syntax.allowInline && p in cfg.syntax.inlinePrefixes && !IsSpace(p)
    requires IsSpace(w) && NEWLINE !in s + [w] + u && |s| + |u| + 3 <= cfg.Capacity() - 1
    requires LineOf(cfg.syntax, Parse(cfg, h, a), s).Pair?
    ensures Parse(cfg, h, a + (s + ([w, p] + u) + "\n" + b)) == Parse(cfg, h, a + (s + "\n" + b))
  {
    var st := Parse(cfg, h, a);
    var v := [w, p] + u;
    ReadLine(cfg, h, a, s, b);
    ReadLine(cfg, h, a, s + v, b);
    LineIgnoresComment(cfg.syntax, st.lineno == 0, st.prevName != "", s, w, p, u);
    NewlineIgnored(cfg.syntax, st.lineno == 0, st.prevName != "", s);
    NewlineIgnored(cfg.syntax, st.lineno == 0, st.prevName != "", s + v);
  }

  /** Spaces behind a line do not change what it means, a newline in particular. */
  lemma {:induction false} SpacesBehind(syn: Syntax, first: bool, open: bool, s: string, e: string)
    requires e != "" && AllSpace(e)
    ensures Classify(syn, first, open, s + e)
            == ClassifyStart(syn, open && (s == "" || Indented(syn, first, s)), Trim(s[BomLen(syn, first, s)..]))
  {
    assert e[0] in e;
    BomBeforeSpace(s, e);
    var x := s[BomLen(syn, first, s)..];
    assert (s + e)[BomLen(syn, first, s)..] == x + e;
    RStripAppend(x, e);
    assert (s + e)[0] == if s == "" then e[0] else s[0];
  }

  lemma {:induction false} NewlineIgnored(syn: Syntax, first: bool, open: bool, s: string)
    requires s != ""
    ensures Classify(syn, first, open, s + "\n") == Classify(syn, first, open, s)
  {
    SpacesBehind(syn, first, open, s, "\n");
  }
}
