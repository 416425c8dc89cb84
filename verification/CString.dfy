/** NUL-terminated strings inside byte arrays, and the parser's in-place helpers on them. A pointer
  * into a buffer is an index. */
module CString {
  import opened Text
  import opened Ini

  /** The C string that starts at `buf[at]` is `s`. Whatever lies behind its NUL does not matter. */
  ghost predicate IsCStr(buf: seq<char>, at: nat, s: string) {
    && NulFree(s)
    && at + |s| < |buf|
    && buf[at..at + |s|] == s
    && buf[at + |s|] == NUL
  }

  /** Bytes in front of a C string extend it. */
  lemma {:induction false} CStrJoin(buf: seq<char>, s: string, t: string)
    requires IsCStr(buf, |s|, t) && NulFree(s) && buf[..|s|] == s
    ensures IsCStr(buf, 0, s + t)
  {
    assert buf[0..|s| + |t|] == buf[..|s|] + buf[|s|..|s| + |t|];
  }

  method StrLen(a: array<char>, at: nat, ghost s: string) returns (n: nat)
    requires IsCStr(a[..], at, s)
    ensures n == |s|
  {
    n := 0;
    while a[at + n] != NUL
      invariant n <= |s|
      invariant a[at + n] == if n < |s| then s[n] else NUL
      decreases |s| - n
    {
      if n < |s| {
      }
      n := n + 1;
    }
  }

  /** Strips the spaces off the end of the string at `at`, in place. */
  method RStripInPlace(a: array<char>, at: nat, ghost s: string)
    requires IsCStr(a[..], at, s)
    modifies a
    ensures IsCStr(a[..], at, RStrip(s))
    ensures forall k :: 0 <= k < a.Length && !(at <= k < at + |s|) ==> a[k] == old(a[k])
  {
    var n := StrLen(a, at, s);
    var p := at + n;
    ghost var buf := a[..];
    while p > at
      invariant at <= p <= at + |s| < a.Length
      invariant forall k :: p - at <= k < |s| ==> IsSpace(s[k])
      invariant forall k :: 0 <= k < a.Length && !(p <= k < at + |s|) ==> a[k] == buf[k]
      invariant a[p] == NUL
    {
      if !IsSpace(a[p - 1]) {
        break;
      }
      p := p - 1;
      a[p] := NUL;
    }
    if p > at {
    }
    DropSpacesIs(s, |s|, p - at);
  }

  /** The position of the first non-space character of the string at `at`. */
  method LSkipFrom(a: array<char>, at: nat, ghost s: string) returns (p: nat)
    requires IsCStr(a[..], at, s)
    ensures p == at + |s| - |LSkip(s)|
    ensures IsCStr(a[..], p, LSkip(s))
  {
    p := at;
    while a[p] != NUL && IsSpace(a[p])
      invariant at <= p <= at + |s|
      invariant a[p] == if p - at < |s| then s[p - at] else NUL
      invariant forall k :: 0 <= k < p - at ==> IsSpace(s[k])
      decreases at + |s| - p
    {
      p := p + 1;
    }
    SkipSpacesIs(s, 0, p - at);
  }

  /** The position of the first of `chars` (C's NULL is ""), or of an inline comment, or of the NUL. */
  method FindCharsOrComment(syn: Syntax, a: array<char>, at: nat, chars: string, ghost s: string)
    returns (p: nat)
    requires IsCStr(a[..], at, s)
    ensures p == at + Find(syn, s, chars)
  {
    p := at;
    if syn.allowInline {
      var wasSpace := false;
      while a[p] != NUL && a[p] !in chars && !(wasSpace && a[p] in syn.inlinePrefixes)
        invariant at <= p <= at + |s|
        invariant a[p] == if p - at < |s| then s[p - at] else NUL
        invariant wasSpace == (p > at && IsSpace(s[p - at - 1]))
        invariant FindFrom(syn, s, chars, 0) == FindFrom(syn, s, chars, p - at)
        decreases at + |s| - p
      {
        wasSpace := IsSpace(a[p]);
        p := p + 1;
      }
    } else {
      while a[p] != NUL && a[p] !in chars
        invariant at <= p <= at + |s|
        invariant a[p] == if p - at < |s| then s[p - at] else NUL
        invariant FindFrom(syn, s, chars, 0) == FindFrom(syn, s, chars, p - at)
        decreases at + |s| - p
      {
        p := p + 1;
      }
    }
  }

  /** Copies the string at `src[at]` into `dest`, truncated to what fits. */
  method StrNCpy0(dest: array<char>, src: array<char>, at: nat, ghost s: string)
    requires dest != src && dest.Length > 0
    requires IsCStr(src[..], at, s)
    modifies dest
    ensures IsCStr(dest[..], 0, Take(s, dest.Length - 1))
  {
    var i := 0;
    while i < dest.Length - 1 && src[at + i] != NUL
      invariant 0 <= i <= dest.Length - 1 && i <= |s|
      invariant i < |s| ==> src[at + i] == s[i]
      invariant i == |s| ==> src[at + i] == NUL
      invariant dest[..i] == s[..i]
    {
      dest[i] := src[at + i];
      i := i + 1;
    }
    dest[i] := NUL;
    assert forall c :: c in s[..i] ==> c in s;
  }

  /** The text of the C string at `at`, as a handler reads it through the pointer it is given. */
  method ReadCStr(a: array<char>, at: nat, ghost s: string) returns (t: string)
    requires IsCStr(a[..], at, s)
    ensures t == s
  {
    var n := StrLen(a, at, s);
    t := a[at..at + n];
  }
}
