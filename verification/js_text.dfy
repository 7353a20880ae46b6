/**
 * The handful of JavaScript string and number built-ins the backend leans on:
 * `parseInt` (with and without an explicit radix of 10), `String(n)` for an
 * integer-valued number, `startsWith` and `padStart`.
 */
module JsText {

  /** The value of a `parseInt` call: NaN, or an integer. (`parseInt("-0")` gives
      -0, whose text is "0"; the model folds it into `Num(0)`.) */
  datatype JsNumber = NaN | Num(value: int)

  predicate IsDigit(c: char) { '0' <= c <= '9' }

  function DigitValue(c: char): (d: nat)
    requires IsDigit(c)
    ensures d < 10
  {
    c as int - '0' as int
  }

  function DigitChar(d: nat): (c: char)
    requires d < 10
    ensures IsDigit(c) && DigitValue(c) == d
  {
    ('0' as int + d) as char
  }

  predicate AllDigits(s: string) {
    forall i :: 0 <= i < |s| ==> IsDigit(s[i])
  }

  predicate IsHexDigit(c: char) {
    IsDigit(c) || 'a' <= c <= 'f' || 'A' <= c <= 'F'
  }

  function HexDigitValue(c: char): (d: nat)
    requires IsHexDigit(c)
    ensures d < 16
  {
    if IsDigit(c) then DigitValue(c)
    else if 'a' <= c <= 'f' then c as int - 'a' as int + 10
    else c as int - 'A' as int + 10
  }

  predicate AllHexDigits(s: string) {
    forall i :: 0 <= i < |s| ==> IsHexDigit(s[i])
  }

  /** ECMAScript's StrWhiteSpaceChar: WhiteSpace (TAB, VT, FF, ZWNBSP and every
      Unicode space separator) and LineTerminator (LF, CR, LS, PS). */
  predicate IsWhiteSpace(c: char) {
    || c == '\t' || c == '\n' || c == '\U{000B}' || c == '\U{000C}' || c == '\r'
    || c == ' ' || c == '\U{00A0}' || c == '\U{1680}'
    || ('\U{2000}' <= c <= '\U{200A}')
    || c == '\U{2028}' || c == '\U{2029}' || c == '\U{202F}' || c == '\U{205F}'
    || c == '\U{3000}' || c == '\U{FEFF}'
  }

  function Pow10(e: nat): (p: nat)
    ensures p >= 1
  {
    if e == 0 then 1 else 10 * Pow10(e - 1)
  }

  /** Value of a string of decimal digits, most significant first. */
  function DigitsValue(s: string): (v: nat)
    requires AllDigits(s)
    ensures v < Pow10(|s|)
  {
    if s == [] then 0 else DigitsValue(s[..|s| - 1]) * 10 + DigitValue(s[|s| - 1])
  }

  /** Value of a string of hexadecimal digits, most significant first. */
  function HexValue(s: string): nat
    requires AllHexDigits(s)
  {
    if s == [] then 0 else HexValue(s[..|s| - 1]) * 16 + HexDigitValue(s[|s| - 1])
  }

  /** Length of the longest prefix of `s` made of decimal digits. */
  function DigitRun(s: string): (n: nat)
    ensures n <= |s| && AllDigits(s[..n])
    ensures n < |s| ==> !IsDigit(s[n])
  {
    if s == [] || !IsDigit(s[0]) then 0
    else
      var n := 1 + DigitRun(s[1..]);
      assert s[..n] == [s[0]] + s[1..][..n - 1];
      n
  }

  /** Length of the longest prefix of `s` made of hexadecimal digits. */
  function HexRun(s: string): (n: nat)
    ensures n <= |s| && AllHexDigits(s[..n])
    ensures n < |s| ==> !IsHexDigit(s[n])
  {
    if s == [] || !IsHexDigit(s[0]) then 0
    else
      var n := 1 + HexRun(s[1..]);
      assert s[..n] == [s[0]] + s[1..][..n - 1];
      n
  }

  /** `s` without its leading white space. */
  function TrimStart(s: string): string
  {
    if s != [] && IsWhiteSpace(s[0]) then TrimStart(s[1..]) else s
  }

  /** `TrimStart` drops exactly the leading white space: what it removes is white
      space, and what it keeps is a suffix that does not start with any. */
  lemma {:induction false} TrimStartShape(s: string)
    ensures var t := TrimStart(s);
            |t| <= |s| && t == s[|s| - |t|..]
            && (t != [] ==> !IsWhiteSpace(t[0]))
            && forall i :: 0 <= i < |s| - |t| ==> IsWhiteSpace(s[i])
  {
    if s != [] && IsWhiteSpace(s[0]) {
      var rest := s[1..];
      TrimStartShape(rest);
      var t := TrimStart(rest);
      assert TrimStart(s) == t;
      assert rest[|rest| - |t|..] == s[|s| - |t|..];
      forall i | 0 <= i < |s| - |t|
        ensures IsWhiteSpace(s[i])
      {
        if i > 0 {
          assert s[i] == rest[i - 1];
        }
      }
    }
  }

  /** `parseInt(s)` when `hexPrefix` holds (no radix: a leading "0x" or "0X" after
      the sign selects base 16), `parseInt(s, 10)` when it does not. Leading white
      space and one sign are skipped; the digits end at the first character that is
      not one; no digit at all gives NaN. */
  function ParseIntWith(s: string, hexPrefix: bool): JsNumber
  {
    var t := TrimStart(s);
    var negative := t != [] && t[0] == '-';
    var u := if t != [] && (t[0] == '-' || t[0] == '+') then t[1..] else t;
    if hexPrefix && |u| >= 2 && u[0] == '0' && (u[1] == 'x' || u[1] == 'X') then
      var h := u[2..][..HexRun(u[2..])];
      var v: int := HexValue(h);
      if h == [] then NaN else Num(if negative then -v else v)
    else
      var d := u[..DigitRun(u)];
      var v: int := DigitsValue(d);
      if d == [] then NaN else Num(if negative then -v else v)
  }

  /** `parseInt(s)`. */
  function ParseInt(s: string): JsNumber {
    ParseIntWith(s, true)
  }

  /** `parseInt(s, 10)`. */
  function ParseInt10(s: string): JsNumber {
    ParseIntWith(s, false)
  }

  /** `String(n)` for a non-negative integer: its decimal digits, no leading zero. */
  function NatToString(n: nat): (s: string)
    ensures |s| >= 1 && AllDigits(s)
    ensures s[0] == '0' <==> n == 0
  {
    if n < 10 then [DigitChar(n)] else NatToString(n / 10) + [DigitChar(n % 10)]
  }

  /** `String(n)` for an integer, exactly. (JavaScript's rounding of values beyond
      2^53 and its exponent notation from 10^21 on are not modelled.) */
  function IntToString(n: int): string {
    if n < 0 then "-" + NatToString(-n) else NatToString(n)
  }

  /** `String(x)` for a `parseInt` result. */
  function NumberToString(x: JsNumber): string {
    match x
    case NaN => "NaN"
    case Num(v) => IntToString(v)
  }

  /** `s.startsWith(p)`. */
  predicate StartsWith(s: string, p: string) {
    |p| <= |s| && s[..|p|] == p
  }

  /** `s.padStart(width, fill)` for a one-character fill. */
  function PadStart(s: string, width: nat, fill: char): (r: string)
    ensures |r| == if |s| >= width then |s| else width
    ensures r[|r| - |s|..] == s
    ensures forall i :: 0 <= i < |r| - |s| ==> r[i] == fill
    decreases width - |s|
  {
    if |s| >= width then s else PadStart([fill] + s, width, fill)
  }

  /** The leading decimal digit of a positive integer, computed arithmetically. */
  function LeadingDigit(n: nat): (d: nat)
    requires n > 0
    ensures 1 <= d <= 9
  {
    if n < 10 then n else LeadingDigit(n / 10)
  }

  lemma {:induction false} DigitsValueOfNatToString(n: nat)
    ensures DigitsValue(NatToString(n)) == n
  {
    if n >= 10 {
      var s := NatToString(n);
      assert s[..|s| - 1] == NatToString(n / 10);
      DigitsValueOfNatToString(n / 10);
    }
  }

  lemma {:induction false} DigitRunOfDigits(s: string)
    requires AllDigits(s)
    ensures DigitRun(s) == |s|
  {
    if s != [] {
      DigitRunOfDigits(s[1..]);
    }
  }

  /** Both forms of `parseInt` read a non-empty string of decimal digits as its value. */
  lemma ParseIntOfDigits(s: string)
    requires s != [] && AllDigits(s)
    ensures ParseInt(s) == Num(DigitsValue(s))
    ensures ParseInt10(s) == Num(DigitsValue(s))
  {
    assert !IsWhiteSpace(s[0]);
    assert TrimStart(s) == s;
    DigitRunOfDigits(s);
    assert s[..DigitRun(s)] == s;
  }

  /** `parseInt(String(n)) === n` for every integer `n`. */
  lemma ParseIntOfIntToString(n: int)
    ensures ParseInt(IntToString(n)) == Num(n)
    ensures ParseInt10(IntToString(n)) == Num(n)
  {
    DigitsValueOfNatToString(if n < 0 then -n else n);
    if n < 0 {
      var s := IntToString(n);
      var digits := NatToString(-n);
      assert s == "-" + digits;
      assert !IsWhiteSpace(s[0]);
      assert TrimStart(s) == s;
      assert s[1..] == digits;
      DigitRunOfDigits(digits);
      assert digits[..DigitRun(digits)] == digits;
    } else {
      ParseIntOfDigits(NatToString(n));
    }
  }

  /** The first character of a positive integer's decimal text is its leading digit. */
  lemma {:induction false} NatToStringHead(n: nat)
    requires n > 0
    ensures NatToString(n)[0] == DigitChar(LeadingDigit(n))
  {
    if n >= 10 {
      NatToStringHead(n / 10);
    }
  }

  /** `String(x).startsWith(p)` for a one-digit prefix `p` holds exactly when `x` is a
      positive integer whose leading decimal digit is `p`'s: NaN and negative values
      never match. */
  lemma StartsWithDigitIff(x: JsNumber, d: nat)
    requires 1 <= d <= 9
    ensures StartsWith(NumberToString(x), [DigitChar(d)]) <==>
            x.Num? && x.value > 0 && LeadingDigit(x.value) == d
  {
    var p := [DigitChar(d)];
    match x
    case NaN =>
      assert NumberToString(x)[..1] == "N";
    case Num(v) =>
      var s := NumberToString(x);
      if v < 0 {
        assert s[..1] == "-";
      } else if v == 0 {
        assert s == "0";
      } else {
        NatToStringHead(v);
        assert s[..1] == [s[0]];
        assert s[0] == DigitChar(LeadingDigit(v));
        if StartsWith(s, p) {
          assert DigitValue(s[0]) == LeadingDigit(v);
        }
      }
  }
}
