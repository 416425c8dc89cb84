/** The INI parser as it works: one line buffer that is edited in place, two small name buffers,
  * and a reader that hands out the text. Proved against module Ini. */
module IniParser {
  import opened Text
  import opened Ini
  import opened CString
  import opened Reader

  /** The reader's view of the text: a position and a count of bytes left. */
  class StringReader {
    const text: string
    var ptr: nat
    var numLeft: nat

    ghost predicate Valid()
      reads this
    {
      ptr + numLeft == |text| && NulFree(text)
    }

    ghost function Rest(): string
      requires Valid()
      reads this
    {
      text[ptr..]
    }

    constructor (text: string)
      requires NulFree(text)
      ensures Valid() && Rest() == text && this.text == text
    {
      this.text := text;
      ptr, numLeft := 0, |text|;
    }

    /** `fgets` on a string: one chunk at `str[at]`, terminated; false (NULL) at the end of the text
      * or when the buffer has no room. */
    method Read(str: array<char>, at: nat, num: int) returns (ok: bool)
      requires Valid()
      requires num >= 2 ==> at + num <= str.Length
      modifies this, str
      ensures Valid()
      ensures ok <==> old(Rest()) != "" && num >= 2
      ensures !ok ==> Rest() == old(Rest()) && str[..] == old(str[..])
      ensures ok ==>
                var n := ChunkLen(old(Rest()), num);
                && Rest() == old(Rest())[n..]
                && IsCStr(str[..], at, old(Rest())[..n])
                && str[..at] == old(str[..at])
    {
      if numLeft == 0 || num < 2 {
        return false;
      }
      var n := Copy(str, at, num);
      ptr, numLeft := ptr + n, numLeft - n;
      return true;
    }

    /** The copying loop, and the NUL behind the copy. */
    method Copy(str: array<char>, at: nat, num: int) returns (n: nat)
      requires Valid() && numLeft > 0 && num >= 2 && at + num <= str.Length
      modifies str
      ensures n == ChunkLen(Rest(), num)
      ensures IsCStr(str[..], at, Rest()[..n]) && forall k :: 0 <= k < at ==> str[k] == old(str[k])
    {
      ghost var rest := Rest();
      var room, p, left := num, ptr, numLeft;
      n := 0;
      while room > 1 && left != 0
        invariant n <= |rest| && n <= num - 1 && room == num - n && p == ptr + n && left == numLeft - n
        invariant forall k :: 0 <= k < at ==> str[k] == old(str[k])
        invariant forall k :: 0 <= k < n ==> str[at + k] == rest[k] && rest[k] != NEWLINE
        decreases left
      {
        var c := text[p];
        assert c == rest[n];
        p, left := p + 1, left - 1;
        str[at + n] := c;
        n := n + 1;
        if c == NEWLINE {
          break;
        }
        room := room - 1;
      }
      str[at + n] := NUL;
      ChunkLenIs(rest, num, n);
    }
  }

  /** Brings the next line into the buffer, which is grown while the line does not fit and the
    * configuration lets it. */
  method ReadLine(cfg: Config, reader: StringReader, buf: array<char>, size: int)
    returns (ok: bool, line: array<char>, max: int)
    requires reader.Valid() && buf.Length == size
    requires cfg.Growing() ==> size <= cfg.maxLine
    modifies reader, buf
    ensures reader.Valid() && line.Length == max
    ensures line == buf || fresh(line)
    ensures cfg.Growing() ==> max <= cfg.maxLine
    ensures ok <==> old(reader.Rest()) != "" && size >= 2
    ensures ok ==>
              var rest := old(reader.Rest());
              var (n, m) := NextLine(cfg, rest, size);
              IsCStr(line[..], 0, rest[..n]) && reader.Rest() == rest[n..] && max == m
  {
    line, max := buf, size;
    ghost var rest := reader.Rest();
    ok := reader.Read(line, 0, max);
    if ok && cfg.Growing() {
      line, max := GrowLine(cfg, reader, line, max, rest);
    }
  }

  /** The loop that doubles the buffer until the line in it is complete or `maxLine` is reached. */
  method GrowLine(cfg: Config, reader: StringReader, buf: array<char>, size: int, ghost rest: string)
    returns (line: array<char>, max: int)
    requires reader.Valid() && 2 <= size == buf.Length <= cfg.maxLine && rest != ""
    requires IsCStr(buf[..], 0, rest[..ChunkLen(rest, size)])
    requires reader.Rest() == rest[ChunkLen(rest, size)..]
    modifies reader
    ensures reader.Valid() && line.Length == max <= cfg.maxLine
    ensures line == buf || fresh(line)
    ensures var (n, m) := Grow(rest, ChunkLen(rest, size), size, cfg.maxLine);
            IsCStr(line[..], 0, rest[..n]) && reader.Rest() == rest[n..] && max == m
  {
    line, max := buf, size;
    ghost var goal := Grow(rest, ChunkLen(rest, size), size, cfg.maxLine);
    var offset := StrLen(line, 0, rest[..ChunkLen(rest, size)]);
    LastByte(line[..], rest, offset);
    while offset == max - 1 && line[offset - 1] != NEWLINE
      invariant Loaded(reader, line, rest, offset) && line.Length == max <= cfg.maxLine
      invariant line == buf || fresh(line)
      invariant Grow(rest, offset, max, cfg.maxLine) == goal
      invariant line[offset - 1] == rest[offset - 1]
      decreases cfg.maxLine - max, |rest| - offset
    {
      var done;
      line, max, offset, done := GrowOnce(cfg, reader, line, max, rest, offset);
      if done {
        return;
      }
      LastByte(line[..], rest, offset);
    }
  }

  /** `offset` bytes of `rest` are in the buffer, the others are still to be read. */
  ghost predicate Loaded(reader: StringReader, line: array<char>, rest: string, offset: nat)
    reads reader, line
  {
    && reader.Valid() && 1 <= offset <= |rest| && offset <= line.Length - 1
    && IsCStr(line[..], 0, rest[..offset]) && reader.Rest() == rest[offset..]
  }

  lemma {:induction false} LastByte(buf: seq<char>, rest: string, offset: nat)
    requires 1 <= offset <= |rest| && IsCStr(buf, 0, rest[..offset])
    ensures buf[offset - 1] == rest[offset - 1]
  {
  }

  /** The body of that loop; `done` where it breaks. */
  method GrowOnce(cfg: Config, reader: StringReader, buf: array<char>, size: int, ghost rest: string, offset: nat)
    returns (line: array<char>, max: int, offset': nat, done: bool)
    requires Loaded(reader, buf, rest, offset) && buf.Length == size <= cfg.maxLine
    requires offset == size - 1 && rest[offset - 1] != NEWLINE
    modifies reader
    ensures Loaded(reader, line, rest, offset') && line.Length == max <= cfg.maxLine && fresh(line)
    ensures Grow(rest, offset, size, cfg.maxLine)
            == if done then (offset', max) else Grow(rest, offset', max, cfg.maxLine)
    ensures !done ==> max > size
  {
    max := if 2 * size > cfg.maxLine then cfg.maxLine else 2 * size;
    GrowUnfolds(rest, offset, size, cfg.maxLine, max);
    var ok;
    ok, line, offset' := LoadMore(reader, buf, max, rest, offset);
    done := !ok || max >= cfg.maxLine;
  }

  /** The memory side of it: one more read into a larger block, and its length. */
  method LoadMore(reader: StringReader, buf: array<char>, max: int, ghost rest: string, offset: nat)
    returns (ok: bool, line: array<char>, offset': nat)
    requires Loaded(reader, buf, rest, offset) && buf.Length <= max
    modifies reader
    ensures Loaded(reader, line, rest, offset') && line.Length == max && fresh(line)
    ensures ok <==> offset < |rest| && max - offset >= 2
    ensures offset' == if ok then offset + ChunkLen(rest[offset..], max - offset) else offset
  {
    ok, line := Enlarge(reader, buf, max, rest, offset);
    var more := 0;
    if ok {
      more := StrLen(line, offset, rest[offset..][..ChunkLen(rest[offset..], max - offset)]);
    }
    offset' := offset + more;
  }

  /** One round of that loop: a larger block, and one more read behind what is already there. */
  method Enlarge(reader: StringReader, buf: array<char>, size: int, ghost rest: string, offset: nat)
    returns (ok: bool, line: array<char>)
    requires reader.Valid() && offset < buf.Length <= size && offset <= |rest|
    requires IsCStr(buf[..], 0, rest[..offset]) && reader.Rest() == rest[offset..]
    modifies reader
    ensures reader.Valid() && fresh(line) && line.Length == size
    ensures ok <==> offset < |rest| && size - offset >= 2
    ensures !ok ==> IsCStr(line[..], 0, rest[..offset]) && reader.Rest() == rest[offset..]
    ensures ok ==>
              var n := ChunkLen(rest[offset..], size - offset);
              && IsCStr(line[..], 0, rest[..offset + n]) && reader.Rest() == rest[offset + n..]
              && IsCStr(line[..], offset, rest[offset..][..n])
  {
    line := Realloc(buf, size, rest[..offset]);
    ok := reader.Read(line, offset, size - offset);
    if ok {
    }
  }

  /** `realloc` that succeeds: a block of `size` bytes with the old contents in front. */
  method Realloc(block: array<char>, size: int, ghost s: string) returns (line: array<char>)
    requires block.Length <= size
    requires IsCStr(block[..], 0, s)
    ensures fresh(line) && line.Length == size
    ensures IsCStr(line[..], 0, s) && line[..|s|] == s
  {
    line := new char[size];
    forall i | 0 <= i < block.Length {
      line[i] := block[i];
    }
    assert line[..|s|] == block[0..0 + |s|];
  }

  /** One "[section]" line: closes the name with a NUL, copies it and forgets the previous name. */
  method ParseHeader(syn: Syntax, line: array<char>, start: nat, section: array<char>,
                     prevName: array<char>, ghost s: string)
    returns (closed: bool)
    requires line != section && line != prevName && section != prevName
    requires section.Length == MAX_SECTION && prevName.Length == MAX_NAME
    requires IsCStr(line[..], start, s) && s != ""
    modifies line, section, prevName
    ensures var e := Find(syn, s[1..], "]");
            && (closed <==> e < |s| - 1 && s[1 + e] == ']')
            && (closed ==> IsCStr(section[..], 0, Take(s[1..1 + e], MAX_SECTION - 1)))
    ensures closed ==> IsCStr(prevName[..], 0, "")
    ensures !closed ==> section[..] == old(section[..]) && prevName[..] == old(prevName[..])
  {
    var end := FindCharsOrComment(syn, line, start + 1, "]", s[1..]);
    ghost var e := end - start - 1;
    closed := line[end] == ']';
    if closed {
      ghost var buf := line[..];
      line[end] := NUL;
      assert s[1..][..e] == s[1..1 + e];
      StrNCpy0(section, line, start + 1, s[1..1 + e]);
      prevName[0] := NUL;
    }
  }

  /** One name/value line: splits it at the first '=' or ':' and trims both halves in place. When
    * there is none, `end` is where the search stopped and the line is untouched. */
  method SplitPair(syn: Syntax, line: array<char>, start: nat, ghost s: string)
    returns (found: bool, end: nat, value: nat)
    requires IsCStr(line[..], start, s)
    modifies line
    ensures var e := Find(syn, s, "=:");
            && end == start + e
            && (found <==> e < |s| && s[e] in "=:")
            && (found ==>
                  && IsCStr(line[..], start, RStrip(s[..e]))
                  && IsCStr(line[..], value, ValueText(syn, s[e + 1..])))
    ensures !found ==> line[..] == old(line[..])
  {
    value := 0;
    end := FindCharsOrComment(syn, line, start, "=:", s);
    ghost var e := end - start;
    found := line[end] == '=' || line[end] == ':';
    if found {
      value := SplitAt(syn, line, start, s, end);
    }
  }

  method SplitAt(syn: Syntax, line: array<char>, start: nat, ghost s: string, end: nat) returns (value: nat)
    requires IsCStr(line[..], start, s) && start <= end < start + |s|
    modifies line
    ensures IsCStr(line[..], start, RStrip(s[..end - start]))
    ensures IsCStr(line[..], value, ValueText(syn, s[end - start + 1..]))
  {
    ghost var e := end - start;
    CutAt(line, start, s, end);
    RStripBefore(line, start, s[..e], end + 1, s[e + 1..]);
    value := TrimValue(syn, line, end + 1, s[e + 1..], start, RStrip(s[..e]));
  }

  method CutAt(line: array<char>, start: nat, ghost s: string, end: nat)
    requires IsCStr(line[..], start, s) && start <= end < start + |s|
    modifies line
    ensures IsCStr(line[..], start, s[..end - start]) && IsCStr(line[..], end + 1, s[end - start + 1..])
  {
    ghost var buf, e := line[..], end - start;
    line[end] := NUL;
  }

  /** Trimming a name leaves the value behind it alone. */
  method RStripBefore(line: array<char>, at: nat, ghost s: string, later: nat, ghost rest: string)
    requires IsCStr(line[..], at, s) && IsCStr(line[..], later, rest)
    requires at + |s| < later
    modifies line
    ensures IsCStr(line[..], at, RStrip(s)) && IsCStr(line[..], later, rest)
  {
    ghost var buf := line[..];
    RStripInPlace(line, at, s);
  }

  /** Cuts an inline comment off the value at `at` and trims it; the name in front stays. */
  method TrimValue(syn: Syntax, line: array<char>, at: nat, ghost rest: string, start: nat, ghost name: string)
    returns (value: nat)
    requires IsCStr(line[..], at, rest) && IsCStr(line[..], start, name)
    requires start + |name| < at
    modifies line
    ensures IsCStr(line[..], value, ValueText(syn, rest)) && IsCStr(line[..], start, name)
  {
    ghost var body := rest;
    if syn.allowInline {
      CutComment(syn, line, at, rest, start, name);
      body := rest[..Find(syn, rest, "")];
    }
    value := TrimAfter(line, at, body, start, name);
  }

  method TrimAfter(line: array<char>, at: nat, ghost body: string, start: nat, ghost name: string)
    returns (value: nat)
    requires IsCStr(line[..], at, body) && IsCStr(line[..], start, name)
    requires start + |name| < at
    modifies line
    ensures IsCStr(line[..], value, RStrip(LSkip(body))) && IsCStr(line[..], start, name)
  {
    value := LSkipFrom(line, at, body);
    ghost var buf := line[..];
    RStripInPlace(line, value, LSkip(body));
  }

  method CutComment(syn: Syntax, line: array<char>, at: nat, ghost rest: string, start: nat, ghost name: string)
    requires IsCStr(line[..], at, rest) && IsCStr(line[..], start, name)
    requires start + |name| < at
    modifies line
    ensures IsCStr(line[..], at, rest[..Find(syn, rest, "")]) && IsCStr(line[..], start, name)
  {
    ghost var buf := line[..];
    var end := FindCharsOrComment(syn, line, at, "", rest);
    if line[end] != NUL {
      line[end] := NUL;
    }
  }

  /** The two name buffers hold the section and the previous name of `st`. */
  ghost predicate Holds(section: array<char>, prevName: array<char>, st: State)
    reads section, prevName
  {
    && section.Length == MAX_SECTION && prevName.Length == MAX_NAME
    && IsCStr(section[..], 0, st.section) && IsCStr(prevName[..], 0, st.prevName)
  }

  /** The handler call: it sees the strings its three pointers point to. */
  method CallHandler(h: Handler, section: array<char>, nameBuf: array<char>, name: nat, line: array<char>,
                     value: nat, hasValue: bool, lineno: nat, error: nat, calls: seq<Call>,
                     ghost st: State, ghost n: string, ghost v: string)
    returns (error': nat, calls': seq<Call>)
    requires IsCStr(section[..], 0, st.section) && IsCStr(nameBuf[..], name, n)
    requires hasValue ==> IsCStr(line[..], value, v)
    requires st.lineno == lineno && st.error == error && st.calls == calls
    ensures var st' := Deliver(h, st, Call(st.section, n, if hasValue then Some(v) else None));
            && error' == st'.error && calls' == st'.calls
  {
    var s := ReadCStr(section, 0, st.section);
    var t := ReadCStr(nameBuf, name, n);
    var w := None;
    if hasValue {
      var u := ReadCStr(line, value, v);
      w := Some(u);
    }
    calls', error' := calls + [Call(s, t, w)], error;
    if !h(calls') && error == 0 {
      error' := lineno;
    }
  }

  /** A line that is neither a comment nor a continuation: header, pair or name without value. */
  method ParseText(syn: Syntax, h: Handler, line: array<char>, start: nat, section: array<char>,
                   prevName: array<char>, lineno: nat, error: nat, calls: seq<Call>,
                   ghost s: string, ghost st: State)
    returns (error': nat, calls': seq<Call>)
    requires line != section && line != prevName && section != prevName
    requires Holds(section, prevName, st)
    requires st.lineno == lineno && st.error == error && st.calls == calls
    requires IsCStr(line[..], start, s) && !IsComment(syn, s)
    modifies line, section, prevName
    ensures var st' := Apply(syn, h, st, ClassifyText(syn, s));
            Holds(section, prevName, st') && error' == st'.error && calls' == st'.calls
  {
    error', calls' := error, calls;
    if line[start] == '[' {
      var closed := ParseHeader(syn, line, start, section, prevName, s);
      if !closed && error == 0 {
        error' := lineno;
      }
    } else {
      error', calls' := ParsePair(syn, h, line, start, section, prevName, lineno, error, calls, s, st);
    }
  }

  method ParsePair(syn: Syntax, h: Handler, line: array<char>, start: nat, section: array<char>,
                   prevName: array<char>, lineno: nat, error: nat, calls: seq<Call>,
                   ghost s: string, ghost st: State)
    returns (error': nat, calls': seq<Call>)
    requires line != section && line != prevName && section != prevName
    requires Holds(section, prevName, st)
    requires st.lineno == lineno && st.error == error && st.calls == calls
    requires IsCStr(line[..], start, s) && !IsComment(syn, s) && s[0] != '['
    modifies line, prevName
    ensures var st' := Apply(syn, h, st, ClassifyText(syn, s));
            Holds(section, prevName, st') && error' == st'.error && calls' == st'.calls
  {
    var found, end, value := SplitAsMeant(syn, line, start, s);
    ghost var meant := ClassifyText(syn, s);
    if found {
      error', calls' := DeliverPair(syn, h, line, start, value, section, prevName, lineno, error, calls,
                                    meant.name, meant.value, st);
    } else {
      error', calls' := ParseNoValue(syn, h, line, start, end, section, lineno, error, calls, s, st);
    }
  }

  /** The split, in terms of what the line means. */
  method SplitAsMeant(syn: Syntax, line: array<char>, start: nat, ghost s: string)
    returns (found: bool, end: nat, value: nat)
    requires IsCStr(line[..], start, s) && !IsComment(syn, s) && s[0] != '['
    modifies line
    ensures found ==>
              && ClassifyText(syn, s).Pair?
              && IsCStr(line[..], start, ClassifyText(syn, s).name)
              && IsCStr(line[..], value, ClassifyText(syn, s).value)
    ensures !found ==>
              && start <= end <= start + |s| && line[..] == old(line[..])
              && ClassifyText(syn, s) == NoValue(RStrip(s[..end - start]))
  {
    found, end, value := SplitPair(syn, line, start, s);
  }

  /** A pair becomes the open name and goes to the handler. */
  method DeliverPair(syn: Syntax, h: Handler, line: array<char>, start: nat, value: nat, section: array<char>,
                     prevName: array<char>, lineno: nat, error: nat, calls: seq<Call>,
                     ghost name: string, ghost text: string, ghost st: State)
    returns (error': nat, calls': seq<Call>)
    requires line != section && line != prevName && section != prevName
    requires Holds(section, prevName, st)
    requires st.lineno == lineno && st.error == error && st.calls == calls
    requires IsCStr(line[..], start, name) && IsCStr(line[..], value, text)
    modifies prevName
    ensures var st' := Apply(syn, h, st, Pair(name, text));
            Holds(section, prevName, st') && error' == st'.error && calls' == st'.calls
  {
    StrNCpy0(prevName, line, start, name);
    error', calls' := CallHandler(h, section, line, start, line, value, true, lineno, error, calls,
                                  st.(prevName := Take(name, MAX_NAME - 1)), name, text);
  }

  method ParseNoValue(syn: Syntax, h: Handler, line: array<char>, start: nat, end: nat, section: array<char>,
                      lineno: nat, error: nat, calls: seq<Call>, ghost s: string, ghost st: State)
    returns (error': nat, calls': seq<Call>)
    requires line != section && IsCStr(section[..], 0, st.section)
    requires st.lineno == lineno && st.error == error && st.calls == calls
    requires IsCStr(line[..], start, s) && start <= end <= start + |s|
    modifies line
    ensures var st' := Apply(syn, h, st, NoValue(RStrip(s[..end - start])));
            && error' == st'.error && calls' == st'.calls
            && st'.section == st.section && st'.prevName == st.prevName
  {
    error', calls' := error, calls;
    if error == 0 {
      if syn.allowNoValue {
        CutName(line, start, s, end);
        error', calls' := CallHandler(h, section, line, start, line, 0, false, lineno, error, calls, st,
                                      RStrip(s[..end - start]), "");
      } else {
        error' := lineno;
      }
    }
  }

  method CutName(line: array<char>, start: nat, ghost s: string, end: nat)
    requires IsCStr(line[..], start, s) && start <= end <= start + |s|
    modifies line
    ensures IsCStr(line[..], start, RStrip(s[..end - start]))
  {
    ghost var buf := line[..];
    line[end] := NUL;
    RStripInPlace(line, start, s[..end - start]);
  }

  /** One line: trims it in place, recognises it and acts on it. */
  method ParseLine(syn: Syntax, h: Handler, line: array<char>, section: array<char>, prevName: array<char>,
                   lineno: nat, error: nat, calls: seq<Call>, ghost chunk: string, ghost st: State)
    returns (error': nat, calls': seq<Call>)
    requires line != section && line != prevName && section != prevName
    requires Holds(section, prevName, st)
    requires lineno == st.lineno + 1 && error == st.error && calls == st.calls
    requires IsCStr(line[..], 0, chunk) && chunk != ""
    modifies line, section, prevName
    ensures var st' := Step(syn, h, st, chunk);
            Holds(section, prevName, st') && error' == st'.error && calls' == st'.calls
  {
    var bom := SkipBom(syn, line, lineno, chunk);
    var start := TrimLine(line, bom, chunk);
    error', calls' := ParseTrimmed(syn, h, line, start, section, prevName, lineno, error, calls,
                                   Trim(chunk[bom..]), st.prevName != "" && start > 0, st.(lineno := lineno));
  }

  method ParseTrimmed(syn: Syntax, h: Handler, line: array<char>, start: nat, section: array<char>,
                      prevName: array<char>, lineno: nat, error: nat, calls: seq<Call>,
                      ghost s: string, ghost inner: bool, ghost st: State)
    returns (error': nat, calls': seq<Call>)
    requires line != section && line != prevName && section != prevName
    requires Holds(section, prevName, st)
    requires st.lineno == lineno && st.error == error && st.calls == calls
    requires IsCStr(line[..], start, s)
    requires inner <==> st.prevName != "" && start > 0
    modifies line, section, prevName
    ensures var st' := Apply(syn, h, st, ClassifyStart(syn, inner, s));
            Holds(section, prevName, st') && error' == st'.error && calls' == st'.calls
  {
    error', calls' := error, calls;
    if line[start] == NUL || line[start] in syn.startPrefixes {
      assert ClassifyStart(syn, inner, s) == Comment;
    } else if syn.allowMultiline && prevName[0] != NUL && start > 0 {
      assert ClassifyStart(syn, inner, s) == Continuation(s);
      error', calls' := CallHandler(h, section, prevName, 0, line, start, true, lineno, error, calls,
                                    st, st.prevName, s);
    } else {
      assert ClassifyStart(syn, inner, s) == ClassifyText(syn, s);
      error', calls' := ParseText(syn, h, line, start, section, prevName, lineno, error, calls, s, st);
    }
  }

  method SkipBom(syn: Syntax, line: array<char>, lineno: nat, ghost chunk: string) returns (bom: nat)
    requires IsCStr(line[..], 0, chunk)
    ensures bom == BomLen(syn, lineno == 1, chunk)
  {
    bom := if syn.allowBom && lineno == 1 && line[0] == BOM[0] && line[1] == BOM[1] && line[2] == BOM[2]
           then 3 else 0;
  }

  method TrimLine(line: array<char>, bom: nat, ghost chunk: string) returns (start: nat)
    requires IsCStr(line[..], 0, chunk) && bom <= |chunk|
    modifies line
    ensures IsCStr(line[..], start, Trim(chunk[bom..]))
    ensures start == bom + SkipSpaces(RStrip(chunk[bom..]), 0)
  {
    RStripInPlace(line, bom, chunk[bom..]);
    start := LSkipFrom(line, bom, RStrip(chunk[bom..]));
  }

  lemma {:induction false} RunEnd(cfg: Config, h: Handler, st: State, rest: string, size: int)
    requires cfg.Growing() ==> size <= cfg.maxLine
    requires rest == "" || size < 2 || Stopped(cfg.stopOnFirstError, st)
    ensures Run(cfg.syntax, cfg.stopOnFirstError, h, st, LinesFrom(cfg, rest, size)) == st
  {
  }

  /** One round of the parser's loop: the next line is loaded and parsed. */
  method ParseNext(cfg: Config, reader: StringReader, h: Handler, buf: array<char>, size: int, section: array<char>,
                   prevName: array<char>, lineno: nat, error: nat, calls: seq<Call>, ghost st: State)
    returns (ok: bool, line: array<char>, max: int, error': nat, calls': seq<Call>)
    requires reader.Valid() && buf.Length == size && (cfg.Growing() ==> size <= cfg.maxLine)
    requires buf != section && buf != prevName && section != prevName && Holds(section, prevName, st)
    requires lineno == st.lineno && error == st.error && calls == st.calls
    modifies reader, buf, section, prevName
    ensures reader.Valid() && line.Length == max && (cfg.Growing() ==> max <= cfg.maxLine)
    ensures line == buf || fresh(line)
    ensures ok <==> old(reader.Rest()) != "" && size >= 2
    ensures ok ==>
              var rest := old(reader.Rest());
              var (n, m) := NextLine(cfg, rest, size);
              var st' := Step(cfg.syntax, h, st, rest[..n]);
              && reader.Rest() == rest[n..] && max == m
              && Holds(section, prevName, st') && error' == st'.error && calls' == st'.calls
    ensures !ok ==> error' == error && calls' == calls
  {
    ghost var rest := reader.Rest();
    error', calls' := error, calls;
    ok, line, max := ReadLine(cfg, reader, buf, size);
    if ok {
      error', calls' := ParseLine(cfg.syntax, h, line, section, prevName, lineno + 1, error, calls,
                                  rest[..NextLine(cfg, rest, size).0], st);
    }
  }

  /** The parser. `error` is what it returns; `calls` is what the handler has received. */
  method ParseStream(cfg: Config, reader: StringReader, h: Handler) returns (error: nat, calls: seq<Call>)
    requires cfg.Valid() && reader.Valid()
    modifies reader
    ensures var end := Parse(cfg, h, old(reader.Rest()));
            error == end.error && calls == end.calls
  {
    var max := cfg.BufferSize();
    var line := new char[max];
    var section, prevName := new char[MAX_SECTION], new char[MAX_NAME];
    section[0], prevName[0] := NUL, NUL;
    var lineno := 0;
    error, calls := 0, [];
    ghost var st, goal := INITIAL, Parse(cfg, h, reader.Rest());
    while true
      invariant fresh(line) && line.Length == max && line != section && line != prevName
      invariant reader.Valid() && (cfg.Growing() ==> max <= cfg.maxLine)
      invariant Holds(section, prevName, st)
      invariant lineno == st.lineno && error == st.error && calls == st.calls
      invariant !Stopped(cfg.stopOnFirstError, st)
      invariant Run(cfg.syntax, cfg.stopOnFirstError, h, st, LinesFrom(cfg, reader.Rest(), max)) == goal
      decreases |reader.Rest()|
    {
      ghost var rest, size := reader.Rest(), max;
      var ok;
      ok, line, max, error, calls := ParseNext(cfg, reader, h, line, max, section, prevName, lineno, error, calls, st);
      if !ok {
        RunEnd(cfg, h, st, rest, size);
        break;
      }
      lineno := lineno + 1;
      ghost var chunk := rest[..NextLine(cfg, rest, size).0];
      StepCounts(cfg.syntax, h, st, chunk);
      st := Step(cfg.syntax, h, st, chunk);
      if cfg.stopOnFirstError && error != 0 {
        RunEnd(cfg, h, st, reader.Rest(), max);
        break;
      }
    }
    assert st == goal;
  }

  method ParseString(cfg: Config, text: string, h: Handler) returns (error: nat, calls: seq<Call>)
    requires cfg.Valid() && NulFree(text)
    ensures error == Parse(cfg, h, text).error && calls == Parse(cfg, h, text).calls
  {
    var reader := new StringReader(text);
    error, calls := ParseStream(cfg, reader, h);
  }
}
