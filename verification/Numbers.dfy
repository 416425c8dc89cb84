/** Reading numbers the way `sscanf("%x")`, `sscanf("%d")` and `atoi` do on a 64-bit C library: the
  * digits are read into a 64-bit integer that saturates, and the result is cut to an `int`. */
module Numbers {
  import opened Text
  import opened Ini

  const TWO_32 := 0x1_0000_0000
  const INT_MAX := 0x7fff_ffff
  const ULONG_MAX := 0xffff_ffff_ffff_ffff
  const LONG_MAX := 0x7fff_ffff_ffff_ffff

  predicate IsInt(x: int) {
    -INT_MAX - 1 <= x <= INT_MAX
  }

  /** The conversion of a 64-bit integer to `int`: the low 32 bits in two's complement. */
  function ToInt(x: int): (r: int)
    ensures IsInt(r) && (IsInt(x) ==> r == x)
  {
    (x + INT_MAX + 1) % TWO_32 - INT_MAX - 1
  }

  datatype Base = Decimal | Hexadecimal

  function Size(base: Base): nat {
    if base == Decimal then 10 else 16
  }

  /** The value of a digit in the given base, None for any other character. */
  function DigitValue(c: char, base: Base): (d: Option<nat>)
    ensures d.Some? ==> d.value < Size(base)
  {
    var v := if '0' <= c <= '9' then c as int - '0' as int
             else if 'a' <= c <= 'f' then c as int - 'a' as int + 10
             else if 'A' <= c <= 'F' then c as int - 'A' as int + 10
             else 16;
    if v < Size(base) then Some(v) else None
  }

  /** The number of digits in front of `s`, and the number that they denote. */
  function Digits(s: string, base: Base): nat {
    if s == "" || DigitValue(s[0], base).None? then 0 else 1 + Digits(s[1..], base)
  }

  predicate IsNumber(s: string, base: Base) {
    forall k :: 0 <= k < |s| ==> DigitValue(s[k], base).Some?
  }

  /** One more digit at the end of a number. */
  function Shifted(n: nat, d: nat, base: Base): nat {
    if base == Decimal then 10 * n + d else 16 * n + d
  }

  function Number(s: string, base: Base): nat
    requires IsNumber(s, base)
  {
    if s == "" then 0 else Shifted(Number(s[..|s| - 1], base), DigitValue(s[|s| - 1], base).value, base)
  }

  lemma {:induction false} DigitsSpec(s: string, base: Base)
    ensures Digits(s, base) <= |s|
    ensures forall k :: 0 <= k < Digits(s, base) ==> DigitValue(s[k], base).Some?
    ensures Digits(s, base) < |s| ==> DigitValue(s[Digits(s, base)], base).None?
  {
    if s != "" && DigitValue(s[0], base).Some? {
      DigitsSpec(s[1..], base);
      forall k | 0 <= k < Digits(s, base) ensures DigitValue(s[k], base).Some? {
        if k > 0 { assert s[k] == s[1..][k - 1]; }
      }
    }
  }

  /** The number in front of `s`, None when it has no digit. */
  function Leading(s: string, base: Base): Option<nat> {
    var n := Digits(s, base);
    DigitsSpec(s, base);
    if n == 0 then None else Some(Number(s[..n], base))
  }

  function Negative(s: string): bool {
    s != "" && s[0] == '-'
  }

  function Unsigned(s: string): string {
    if s != "" && (s[0] == '-' || s[0] == '+') then s[1..] else s
  }

  function Min(x: int, y: int): int {
    if x <= y then x else y
  }

  /** The number of hexadecimal digits: a "0x" in front is read over, and its zero counts as a digit. */
  function HexNumber(digits: string): Option<nat> {
    var prefixed := |digits| >= 2 && digits[0] == '0' && (digits[1] == 'x' || digits[1] == 'X');
    if !prefixed then Leading(digits, Hexadecimal)
    else if Leading(digits[2..], Hexadecimal).None? then Some(0)
    else Leading(digits[2..], Hexadecimal)
  }

  /** `sscanf(value, "%x", &field)`: None leaves the field as it is. */
  function ScanHex(value: string): (r: Option<int>)
    ensures r.Some? ==> IsInt(r.value)
  {
    var s := LSkip(value);
    var n := HexNumber(Unsigned(s));
    if n.None? then None
    else if n.value > ULONG_MAX then Some(ToInt(ULONG_MAX))
    else
      var x: int := n.value;
      Some(ToInt(if Negative(s) then -x else x))
  }

  /** `sscanf(value, "%d", &field)`. */
  function ScanDec(value: string): (r: Option<int>)
    ensures r.Some? ==> IsInt(r.value)
  {
    var s := LSkip(value);
    var n := Leading(Unsigned(s), Decimal);
    if n.None? then None
    else Some(ToInt(if Negative(s) then -Min(n.value, LONG_MAX + 1) else Min(n.value, LONG_MAX)))
  }

  /** `atoi(value)`: text without a number reads as 0. */
  function Atoi(value: string): (r: int)
    ensures IsInt(r)
  {
    match ScanDec(value)
    case Some(n) => n
    case None => 0
  }

  // ---- Printing, and reading back

  function DigitChar(d: nat): char
    requires d < 16
  {
    if d < 10 then ('0' as int + d) as char else ('a' as int + d - 10) as char
  }

  function Quotient(n: nat, base: Base): nat {
    if base == Decimal then n / 10 else n / 16
  }

  function Remainder(n: nat, base: Base): (d: nat)
    ensures d < Size(base)
  {
    if base == Decimal then n % 10 else n % 16
  }

  /** The digits of `n`, without leading zeros. */
  function PrintNat(n: nat, base: Base): string {
    (if n < Size(base) then "" else PrintNat(Quotient(n, base), base)) + [DigitChar(Remainder(n, base))]
  }

  lemma {:induction false} DigitOf(d: nat, base: Base)
    requires d < Size(base)
    ensures DigitValue(DigitChar(d), base) == Some(d)
  {
  }

  lemma {:induction false} DivMod(n: nat, base: Base)
    ensures Shifted(Quotient(n, base), Remainder(n, base), base) == n
    ensures n < Size(base) ==> Remainder(n, base) == n
  {
  }

  lemma {:induction false} PrintedDigits(n: nat, base: Base)
    ensures var s := PrintNat(n, base); s != "" && IsNumber(s, base) && Number(s, base) == n
    decreases n
  {
    var c := DigitChar(Remainder(n, base));
    DigitOf(Remainder(n, base), base);
    DivMod(n, base);
    if n < Size(base) {
    } else {
      PrintedDigits(Quotient(n, base), base);
    }
  }

  /** `printf("0x%x", key)` for any `int`. */
  function PrintHex(x: int): string
    requires IsInt(x)
  {
    "0x" + PrintNat(if x < 0 then x + TWO_32 else x, Hexadecimal)
  }

  /** `printf("%d", x)` for any `int`. */
  function PrintDec(x: int): string
    requires IsInt(x)
  {
    if x < 0 then "-" + PrintNat(-x, Decimal) else PrintNat(x, Decimal)
  }
}
