/** Character classes and trimming, the parts of the C library that the parser relies on.
  * A C string is modelled as a `string` without NUL.
  * A text is trimmed at its right end first, as the parser does it; the lemmas say that the order does
  * not matter, what spaces at either end do, and that every text is its trimmed text between spaces. */
module Text {

  const NUL := '\0'
  const NEWLINE := '\n'

  /** `isspace` in the C locale: space, tab, newline, vertical tab, form feed, carriage return. */
  predicate IsSpace(c: char) {
    c == ' ' || '\t' <= c <= '\r'
  }

  predicate NulFree(s: string) {
    NUL !in s
  }

  /** The first `n` characters of `s`, or all of it when it is shorter. */
  function Take(s: string, n: nat): (r: string)
    ensures r <= s && |r| == if |s| < n then |s| else n
  {
    if |s| <= n then s else s[..n]
  }

  /** The first position at or after `i` that holds no space, |s| when there is none. */
  function SkipSpaces(s: string, i: nat): (r: nat)
    requires i <= |s|
    ensures i <= r <= |s|
    decreases |s| - i
  {
    if i < |s| && IsSpace(s[i]) then SkipSpaces(s, i + 1) else i
  }

  /** The end of `s[..n]` without the spaces at its end. */
  function DropSpaces(s: string, n: nat): (r: nat)
    requires n <= |s|
    ensures r <= n
  {
    if n > 0 && IsSpace(s[n - 1]) then DropSpaces(s, n - 1) else n
  }

  /** The suffix of `s` from its first non-space character. */
  function LSkip(s: string): string {
    s[SkipSpaces(s, 0)..]
  }

  /** The prefix of `s` up to and including its last non-space character. */
  function RStrip(s: string): string {
    s[..DropSpaces(s, |s|)]
  }

  predicate Trimmed(s: string) {
    s != "" ==> !IsSpace(s[0]) && !IsSpace(s[|s| - 1])
  }

  /** Both ends trimmed, in the order in which the parser trims a line. */
  function Trim(s: string): string {
    LSkip(RStrip(s))
  }

  predicate AllSpace(s: string) {
    forall c :: c in s ==> IsSpace(c)
  }

  lemma {:induction false} SkipSpacesStops(s: string, i: nat)
    requires i <= |s|
    ensures var r := SkipSpaces(s, i); r < |s| ==> !IsSpace(s[r])
    ensures AllSpace(s[i..SkipSpaces(s, i)])
    decreases |s| - i
  {
    if i < |s| && IsSpace(s[i]) {
      SkipSpacesStops(s, i + 1);
      assert s[i..SkipSpaces(s, i)] == [s[i]] + s[i + 1..SkipSpaces(s, i)];
    }
  }

  lemma {:induction false} DropSpacesStops(s: string, n: nat)
    requires n <= |s|
    ensures var r := DropSpaces(s, n); r > 0 ==> !IsSpace(s[r - 1])
    ensures AllSpace(s[DropSpaces(s, n)..n])
  {
    if n > 0 && IsSpace(s[n - 1]) {
      DropSpacesStops(s, n - 1);
      assert s[DropSpaces(s, n)..n] == s[DropSpaces(s, n)..n - 1] + [s[n - 1]];
    }
  }

  lemma {:induction false} SkipSpacesIs(s: string, i: nat, n: nat)
    requires i <= n <= |s|
    requires forall k :: i <= k < n ==> IsSpace(s[k])
    requires n < |s| ==> !IsSpace(s[n])
    ensures SkipSpaces(s, i) == n
    decreases n - i
  {
    if i < n { SkipSpacesIs(s, i + 1, n); }
  }

  lemma {:induction false} DropSpacesIs(s: string, n: nat, m: nat)
    requires m <= n <= |s|
    requires forall k :: m <= k < n ==> IsSpace(s[k])
    requires m > 0 ==> !IsSpace(s[m - 1])
    ensures DropSpaces(s, n) == m
  {
    if m < n { DropSpacesIs(s, n - 1, m); }
  }

  lemma {:induction false} LSkipSplit(s: string) returns (l: string)
    ensures AllSpace(l) && s == l + LSkip(s)
    ensures LSkip(s) != "" ==> !IsSpace(LSkip(s)[0])
  {
    SkipSpacesStops(s, 0);
    l := s[0..SkipSpaces(s, 0)];
  }

  lemma {:induction false} RStripSplit(s: string) returns (r: string)
    ensures AllSpace(r) && s == RStrip(s) + r
    ensures RStrip(s) != "" ==> !IsSpace(RStrip(s)[|RStrip(s)| - 1])
  {
    DropSpacesStops(s, |s|);
    r := s[DropSpaces(s, |s|)..|s|];
  }

  lemma {:induction false} LSkipPrepend(l: string, s: string)
    requires AllSpace(l)
    ensures LSkip(l + s) == LSkip(s)
  {
    SkipSpacesStops(s, 0);
    var n, t := SkipSpaces(s, 0), l + s;
    assert forall k :: 0 <= k < n ==> s[k] == s[0..n][k];
    forall k | 0 <= k < |l| + n ensures IsSpace(t[k]) {
      if k < |l| { assert t[k] == l[k] && l[k] in l; } else { assert t[k] == s[0..n][k - |l|]; }
    }
    SkipSpacesIs(t, 0, |l| + n);
  }

  lemma {:induction false} RStripAppend(s: string, r: string)
    requires AllSpace(r)
    ensures RStrip(s + r) == RStrip(s)
  {
    DropSpacesStops(s, |s|);
    var n, t := DropSpaces(s, |s|), s + r;
    forall k | n <= k < |t| ensures IsSpace(t[k]) {
      if k < |s| { assert t[k] == s[n..|s|][k - n]; } else { assert t[k] == r[k - |s|] && r[k - |s|] in r; }
    }
    DropSpacesIs(t, |t|, n);
    assert t[..n] == s[..n];
  }

  lemma {:induction false} LSkipStops(s: string)
    requires s == "" || !IsSpace(s[0])
    ensures LSkip(s) == s
  {
  }

  lemma {:induction false} RStripStops(s: string)
    requires s == "" || !IsSpace(s[|s| - 1])
    ensures RStrip(s) == s
  {
  }

  lemma {:induction false} DropSpacesKeepsFirst(s: string, n: nat)
    requires 1 <= n <= |s| && !IsSpace(s[0])
    ensures DropSpaces(s, n) >= 1
  {
    if n > 1 && IsSpace(s[n - 1]) { DropSpacesKeepsFirst(s, n - 1); }
  }

  lemma {:induction false} RStripKeepsFirst(s: string)
    requires s != "" && !IsSpace(s[0])
    ensures RStrip(s) != "" && RStrip(s)[0] == s[0]
  {
    DropSpacesKeepsFirst(s, |s|);
  }

  lemma {:induction false} StripBlank(s: string)
    requires AllSpace(s)
    ensures RStrip(s) == "" && LSkip(s) == ""
  {
    assert forall k :: 0 <= k < |s| ==> s[k] in s;
    DropSpacesIs(s, |s|, 0);
    SkipSpacesIs(s, 0, |s|);
  }

  lemma {:induction false} TrimIsRightFirst(l: string, m: string, r: string)
    requires AllSpace(l) && AllSpace(r) && Trimmed(m)
    ensures LSkip(RStrip(l + m + r)) == m
  {
    RStripAppend(l + m, r);
    if m == "" {
      assert l + m == l;
      StripBlank(l);
    } else {
      assert (l + m)[|l + m| - 1] == m[|m| - 1];
      RStripStops(l + m);
      LSkipPrepend(l, m);
      LSkipStops(m);
    }
  }

  lemma {:induction false} TrimIsLeftFirst(l: string, m: string, r: string)
    requires AllSpace(l) && AllSpace(r) && Trimmed(m)
    ensures RStrip(LSkip(l + (m + r))) == m
  {
    LSkipPrepend(l, m + r);
    if m == "" {
      assert m + r == r;
      StripBlank(r);
    } else {
      assert (m + r)[0] == m[0];
      LSkipStops(m + r);
      RStripAppend(m, r);
      RStripStops(m);
    }
  }

  lemma {:induction false} Assoc(a: string, b: string, c: string)
    ensures a + b + c == a + (b + c)
  {
  }

  /** The text between the outer spaces, whichever end is trimmed first. */
  lemma {:induction false} TrimIs(l: string, m: string, r: string)
    requires AllSpace(l) && AllSpace(r) && Trimmed(m)
    ensures Trim(l + m + r) == m
    ensures RStrip(LSkip(l + m + r)) == m
  {
    TrimIsRightFirst(l, m, r);
    assert RStrip(LSkip(l + m + r)) == m by {
      Assoc(l, m, r);
      TrimIsLeftFirst(l, m, r);
    }
  }

  /** `Trim` finds that middle in every text. */
  lemma {:induction false} TrimSplit(s: string) returns (l: string, r: string)
    ensures AllSpace(l) && AllSpace(r) && s == l + Trim(s) + r
    ensures Trimmed(Trim(s)) && RStrip(LSkip(s)) == Trim(s)
  {
    r := RStripSplit(s);
    l := LSkipSplit(RStrip(s));
    assert Trim(s) != "" ==> Trim(s)[|Trim(s)| - 1] == RStrip(s)[|RStrip(s)| - 1];
    TrimIs(l, Trim(s), r);
  }

  lemma {:induction false} Regroup(a: string, b: string, c: string, d: string, e: string)
    ensures a + (b + c + d) + e == (a + b) + c + (d + e)
  {
  }

  /** Spaces at either end do not change the trimmed text. */
  lemma {:induction false} TrimPad(l: string, s: string, r: string)
    requires AllSpace(l) && AllSpace(r)
    ensures Trim(l + s + r) == Trim(s)
  {
    var l', r' := TrimSplit(s);
    TrimIs(l + l', Trim(s), r' + r);
    Regroup(l, l', Trim(s), r', r);
  }
}
