/** What the number scanners make of any text, by its parts: spaces, a sign, for hexadecimal numbers a
  * prefix, digits, and anything behind them. */
module Scanning {
  import opened Text
  import opened Ini
  import opened Numbers

  predicate StartsWithDigit(s: string, base: Base) {
    s != "" && DigitValue(s[0], base).Some?
  }

  /** The parts of a text in front of its tail; a text without a number has no digits. */
  predicate Parts(lead: string, sign: string, digits: string, tail: string, base: Base) {
    && AllSpace(lead) && sign in ["", "+", "-"] && IsNumber(digits, base) && !StartsWithDigit(tail, base)
    && (sign + digits == "" ==> tail == "" || (tail[0] !in "+-" && !IsSpace(tail[0])))
  }

  /** The same with "0x" or "0X" or nothing in front of the digits. */
  predicate HexParts(lead: string, sign: string, prefix: string, digits: string, tail: string) {
    && AllSpace(lead) && sign in ["", "+", "-"] && prefix in ["", "0x", "0X"]
    && IsNumber(digits, Hexadecimal) && !StartsWithDigit(tail, Hexadecimal)
    && (sign + prefix + digits == "" ==> tail == "" || (tail[0] !in "+-" && !IsSpace(tail[0])))
    && (prefix == "" && digits == "0" ==> tail == "" || tail[0] !in "xX")
  }

  function Signed(sign: string, n: int): int {
    if sign == "-" then -n else n
  }

  lemma {:induction false} DigitIsPlain(c: char, base: Base)
    requires DigitValue(c, base).Some?
    ensures !IsSpace(c) && c !in "+-xX"
  {
  }

  /** The digits in front of a text that does not go on with a digit. */
  lemma {:induction false} LeadingIs(digits: string, tail: string, base: Base)
    requires IsNumber(digits, base) && !StartsWithDigit(tail, base)
    ensures Leading(digits + tail, base) == if digits == "" then None else Some(Number(digits, base))
  {
    DigitsAre(digits, tail, base);
    assert (digits + tail)[..|digits|] == digits;
  }

  lemma {:induction false} DigitsAre(digits: string, tail: string, base: Base)
    requires IsNumber(digits, base) && !StartsWithDigit(tail, base)
    ensures Digits(digits + tail, base) == |digits|
  {
    if digits == "" {
      assert digits + tail == tail;
    } else {
      assert (digits + tail)[1..] == digits[1..] + tail && DigitValue(digits[0], base).Some?;
      DigitsAre(digits[1..], tail, base);
    }
  }

  /** Spaces and the sign are read over. */
  lemma {:induction false} SignIs(lead: string, sign: string, body: string)
    requires AllSpace(lead) && sign in ["", "+", "-"]
    requires sign == "" ==> body == "" || (body[0] !in "+-" && !IsSpace(body[0]))
    ensures LSkip(lead + (sign + body)) == sign + body
    ensures Unsigned(sign + body) == body && (Negative(sign + body) <==> sign == "-")
  {
    LSkipPrepend(lead, sign + body);
    LSkipStops(sign + body);
  }

  lemma {:induction false} BodyIsPlain(sign: string, digits: string, tail: string, base: Base)
    requires Parts("", sign, digits, tail, base) && sign == ""
    ensures digits + tail == "" || ((digits + tail)[0] !in "+-" && !IsSpace((digits + tail)[0]))
  {
    if digits != "" { DigitIsPlain(digits[0], base); }
  }

  /** `%d` and `atoi`: the number of the leading digits, with its sign, when it fits an `int`; nothing,
    * and 0 for `atoi`, without a digit. */
  lemma {:induction false} ScanDecReads(lead: string, sign: string, digits: string, tail: string)
    requires Parts(lead, sign, digits, tail, Decimal)
    ensures var s := lead + (sign + (digits + tail));
            && (digits == "" ==> ScanDec(s) == None && Atoi(s) == 0)
            && (digits != "" && IsInt(Signed(sign, Number(digits, Decimal))) ==>
                  ScanDec(s) == Some(Signed(sign, Number(digits, Decimal))) && Atoi(s) == Signed(sign, Number(digits, Decimal)))
  {
    if sign == "" { BodyIsPlain(sign, digits, tail, Decimal); }
    SignIs(lead, sign, digits + tail);
    LeadingIs(digits, tail, Decimal);
  }

  /** Without a prefix, the digits are not mistaken for one. */
  lemma {:induction false} NoPrefix(digits: string, tail: string)
    requires IsNumber(digits, Hexadecimal) && !StartsWithDigit(tail, Hexadecimal)
    requires digits == "0" ==> tail == "" || tail[0] !in "xX"
    ensures var body := digits + tail; |body| >= 2 && body[0] == '0' ==> body[1] !in "xX"
  {
    var body := digits + tail;
    if |digits| >= 2 {
      DigitIsPlain(digits[1], Hexadecimal);
    } else if |body| >= 2 && body[0] == '0' {
      assert digits != "" && digits == "0";
    }
  }

  lemma {:induction false} HexBodyIsPlain(prefix: string, digits: string, tail: string)
    requires HexParts("", "", prefix, digits, tail)
    ensures var body := prefix + (digits + tail); body == "" || (body[0] !in "+-" && !IsSpace(body[0]))
  {
    if prefix == "" && digits != "" { DigitIsPlain(digits[0], Hexadecimal); }
  }

  lemma {:induction false} HexNumberIs(prefix: string, digits: string, tail: string)
    requires IsNumber(digits, Hexadecimal) && !StartsWithDigit(tail, Hexadecimal) && prefix in ["", "0x", "0X"]
    requires prefix == "" && digits == "0" ==> tail == "" || tail[0] !in "xX"
    ensures HexNumber(prefix + (digits + tail))
            == if prefix + digits == "" then None else Some(Number(digits, Hexadecimal))
  {
    var body := prefix + (digits + tail);
    LeadingIs(digits, tail, Hexadecimal);
    if prefix == "" {
      NoPrefix(digits, tail);
      assert body == digits + tail;
    } else {
      assert body[0] == '0' && body[1] == prefix[1] && body[2..] == digits + tail;
    }
  }

  /** `%x`: the hexadecimal number of the digits, with or without a prefix, cut to an `int`; nothing
    * without a digit. The zero of a prefix is a digit. */
  lemma {:induction false} ScanHexReads(lead: string, sign: string, prefix: string, digits: string, tail: string)
    requires HexParts(lead, sign, prefix, digits, tail)
    ensures var s := lead + (sign + (prefix + (digits + tail)));
            && (prefix + digits == "" ==> ScanHex(s) == None)
            && (prefix + digits != "" && Number(digits, Hexadecimal) <= ULONG_MAX ==>
                  ScanHex(s) == Some(ToInt(Signed(sign, Number(digits, Hexadecimal)))))
  {
    var body := prefix + (digits + tail);
    if sign == "" { HexBodyIsPlain(prefix, digits, tail); }
    SignIs(lead, sign, body);
    HexNumberIs(prefix, digits, tail);
  }

  // ---- Printing, and reading back

  lemma {:induction false} HexTextReads(digits: string)
    requires digits != "" && IsNumber(digits, Hexadecimal) && Number(digits, Hexadecimal) <= ULONG_MAX
    ensures ScanHex("0x" + digits) == Some(ToInt(Number(digits, Hexadecimal)))
  {
    ScanHexReads("", "", "0x", digits, "");
    assert "" + ("" + ("0x" + (digits + ""))) == "0x" + digits;
  }

  lemma {:induction false} DecTextReads(sign: string, digits: string)
    requires sign in ["", "-"] && digits != "" && IsNumber(digits, Decimal) && IsInt(Signed(sign, Number(digits, Decimal)))
    ensures var n := Signed(sign, Number(digits, Decimal));
            ScanDec(sign + digits) == Some(n) && Atoi(sign + digits) == n
  {
    ScanDecReads("", sign, digits, "");
    assert "" + (sign + (digits + "")) == sign + digits;
  }

  /** Hexadecimal printing and `%x` scanning are inverse on every `int`. */
  lemma {:induction false} HexRoundTrip(x: int)
    requires IsInt(x)
    ensures ScanHex(PrintHex(x)) == Some(x)
  {
    var n: nat := if x < 0 then x + TWO_32 else x;
    HexPrintReads(n);
    WrapsBack(x);
  }

  lemma {:induction false} HexPrintReads(n: nat)
    requires n <= ULONG_MAX
    ensures ScanHex("0x" + PrintNat(n, Hexadecimal)) == Some(ToInt(n))
  {
    var digits := PrintNat(n, Hexadecimal);
    PrintedDigits(n, Hexadecimal);
    HexTextReads(digits);
  }

  lemma {:induction false} WrapsBack(x: int)
    requires IsInt(x)
    ensures ToInt(x) == x && ToInt(x + TWO_32) == x
  {
  }

  /** Decimal printing and `%d` scanning are inverse on every `int`; so is `atoi`. */
  lemma {:induction false} DecRoundTrip(x: int)
    requires IsInt(x)
    ensures ScanDec(PrintDec(x)) == Some(x) && Atoi(PrintDec(x)) == x
  {
    var sign, n := PrintedParts(x);
    DecPrintReads(sign, n);
  }

  lemma {:induction false} PrintedParts(x: int) returns (sign: string, n: nat)
    requires IsInt(x)
    ensures sign in ["", "-"] && Signed(sign, n) == x && PrintDec(x) == sign + PrintNat(n, Decimal)
  {
    if x < 0 { sign, n := "-", -x; } else { sign, n := "", x; }
  }

  lemma {:induction false} DecPrintReads(sign: string, n: nat)
    requires sign in ["", "-"] && IsInt(Signed(sign, n))
    ensures var s := sign + PrintNat(n, Decimal); ScanDec(s) == Some(Signed(sign, n)) && Atoi(s) == Signed(sign, n)
  {
    var digits := PrintNat(n, Decimal);
    PrintedDigits(n, Decimal);
    DecTextReads(sign, digits);
  }

  // ---- Every text has such parts

  lemma {:induction false} EveryHead(s: string) returns (lead: string, sign: string, body: string)
    ensures s == lead + (sign + body) && AllSpace(lead) && sign in ["", "+", "-"]
    ensures sign == "" ==> body == "" || (body[0] !in "+-" && !IsSpace(body[0]))
  {
    lead := LSkipSplit(s);
    var t := LSkip(s);
    if t != "" && t[0] in "+-" {
      sign, body := [t[0]], t[1..];
    } else {
      sign, body := "", t;
    }
  }

  lemma {:induction false} EveryTail(body: string, base: Base) returns (digits: string, tail: string)
    ensures body == digits + tail && IsNumber(digits, base) && !StartsWithDigit(tail, base)
  {
    DigitsSpec(body, base);
    digits, tail := body[..Digits(body, base)], body[Digits(body, base)..];
  }

  lemma {:induction false} EveryDec(s: string) returns (lead: string, sign: string, digits: string, tail: string)
    ensures Parts(lead, sign, digits, tail, Decimal) && s == lead + (sign + (digits + tail))
  {
    var body;
    lead, sign, body := EveryHead(s);
    digits, tail := EveryTail(body, Decimal);
  }

  lemma {:induction false} EveryHex(s: string)
    returns (lead: string, sign: string, prefix: string, digits: string, tail: string)
    ensures HexParts(lead, sign, prefix, digits, tail) && s == lead + (sign + (prefix + (digits + tail)))
  {
    var body;
    lead, sign, body := EveryHead(s);
    var prefixed := |body| >= 2 && body[0] == '0' && body[1] in "xX";
    prefix := if !prefixed then "" else if body[1] == 'x' then "0x" else "0X";
    digits, tail := EveryTail(body[|prefix|..], Hexadecimal);
    assert body == prefix + (digits + tail);
  }

  // ---- The digits

  function Lower(c: char): char {
    if 'A' <= c <= 'F' then (c as int + 32) as char else c
  }

  /** Capital digits count as small ones. */
  lemma {:induction false} NumberIgnoresCase(s: string, t: string)
    requires |t| == |s| && IsNumber(s, Hexadecimal) && forall k :: 0 <= k < |s| ==> t[k] == Lower(s[k])
    ensures IsNumber(t, Hexadecimal) && Number(t, Hexadecimal) == Number(s, Hexadecimal)
  {
    if s != "" {
      NumberIgnoresCase(s[..|s| - 1], t[..|t| - 1]);
    }
  }

  lemma {:induction false} LeadingZero(s: string, base: Base)
    requires IsNumber(s, base)
    ensures IsNumber("0" + s, base) && Number("0" + s, base) == Number(s, base)
  {
    if s != "" {
      LeadingZero(s[..|s| - 1], base);
      assert ("0" + s)[..|s|] == "0" + s[..|s| - 1];
    }
  }

  lemma {:induction false} LastDigit(n: nat, c: char, base: Base)
    requires DigitValue(c, base).Some? && c == Lower(c)
    ensures var m := Shifted(n, DigitValue(c, base).value, base);
            && Quotient(m, base) == n && DigitChar(Remainder(m, base)) == c
            && (m < Size(base) <==> n == 0) && (m == 0 <==> n == 0 && c == '0')
  {
  }

  lemma {:induction false} PrintedNext(n: nat, s: string, c: char, base: Base)
    requires n > 0 && PrintNat(n, base) == s && DigitValue(c, base).Some? && c == Lower(c)
    ensures var m := Shifted(n, DigitValue(c, base).value, base); m > 0 && PrintNat(m, base) == s + [c]
  {
    LastDigit(n, c, base);
  }

  /** Digits without capitals and leading zeros are the ones that printing gives, so they denote that
    * number. */
  lemma {:induction false} NumberIsPrinted(s: string, base: Base)
    requires s != "" && IsNumber(s, base) && (|s| > 1 ==> s[0] != '0') && forall k :: 0 <= k < |s| ==> s[k] == Lower(s[k])
    ensures PrintNat(Number(s, base), base) == s && (s[0] != '0' ==> Number(s, base) > 0)
  {
    var n := |s| - 1;
    assert s == s[..n] + [s[n]];
    if n == 0 {
      LastDigit(0, s[n], base);
    } else {
      NumberIsPrinted(s[..n], base);
      PrintedNext(Number(s[..n], base), s[..n], s[n], base);
    }
  }
}
