/** JavaScript's `parseInt(s, 10)` and the decimal spelling of a number, as the
    configuration screens use them to turn select values into numbers. */
module JsNumbers {

  /** A JavaScript number as far as the model needs one: an integer, or NaN. */
  datatype JsNumber = Int(v: int) | NaN

  /** ECMAScript's StrWhiteSpaceChar: WhiteSpace (tab, vertical tab, form feed,
      zero-width no-break space and every Space_Separator) and LineTerminator. */
  predicate IsStrWhiteSpace(c: char)
  {
    || c == '\t' || c == '\U{000B}' || c == '\U{000C}' || c == '\U{FEFF}'
    || c == ' ' || c == '\U{00A0}' || c == '\U{1680}' || ('\U{2000}' <= c <= '\U{200A}')
    || c == '\U{202F}' || c == '\U{205F}' || c == '\U{3000}'
    || c == '\n' || c == '\r' || c == '\U{2028}' || c == '\U{2029}'
  }

  predicate IsDigit(c: char)
  {
    '0' <= c <= '9'
  }

  predicate AllDigits(s: string)
  {
    forall i :: 0 <= i < |s| ==> IsDigit(s[i])
  }

  function DigitValue(c: char): (d: nat)
    requires IsDigit(c)
    ensures d < 10
  {
    (c as int) - ('0' as int)
  }

  function DigitChar(d: nat): (c: char)
    requires d < 10
    ensures IsDigit(c) && DigitValue(c) == d
  {
    (('0' as int) + d) as char
  }

  /** Drops leading white space. */
  function TrimStart(s: string): (r: string)
    ensures |r| <= |s| && r == s[|s| - |r|..]
    ensures forall i :: 0 <= i < |s| - |r| ==> IsStrWhiteSpace(s[i])
    ensures |r| == 0 || !IsStrWhiteSpace(r[0])
  {
    if |s| > 0 && IsStrWhiteSpace(s[0]) then TrimStart(s[1..]) else s
  }

  /** The longest prefix made of decimal digits. */
  function DigitPrefix(s: string): (r: string)
    ensures |r| <= |s| && r == s[..|r|]
    ensures AllDigits(r)
    ensures |r| == |s| || !IsDigit(s[|r|])
  {
    if |s| > 0 && IsDigit(s[0]) then [s[0]] + DigitPrefix(s[1..]) else []
  }

  /** The value of a digit string, most significant digit first. */
  function DigitsValue(d: string): nat
    requires AllDigits(d)
  {
    if |d| == 0 then 0 else DigitsValue(d[..|d| - 1]) * 10 + DigitValue(d[|d| - 1])
  }

  /** `parseInt(s, 10)`: skip white space, take an optional sign, then the longest run of
      digits; no digits at all gives NaN. */
  function ParseInt(s: string): JsNumber
  {
    ParseSigned(TrimStart(s))
  }

  /** `parseInt` after the white space: an optional sign, then the digits. */
  function ParseSigned(t: string): JsNumber
  {
    var negative := |t| > 0 && t[0] == '-';
    var u := if |t| > 0 && (t[0] == '-' || t[0] == '+') then t[1..] else t;
    var d := DigitPrefix(u);
    if |d| == 0 then NaN
    else if negative then Int(-(DigitsValue(d) as int))
    else Int(DigitsValue(d))
  }

  /** The canonical decimal spelling of a natural number (`String(n)`). */
  function Decimal(n: nat): (r: string)
    ensures |r| > 0 && AllDigits(r)
    ensures |r| > 1 ==> r[0] != '0'
  {
    if n < 10 then [DigitChar(n)] else Decimal(n / 10) + [DigitChar(n % 10)]
  }

  lemma {:induction false} DecimalValue(n: nat)
    ensures DigitsValue(Decimal(n)) == n
  {
    if n >= 10 {
      var r := Decimal(n);
      assert r[..|r| - 1] == Decimal(n / 10);
      DecimalValue(n / 10);
    }
  }

  lemma {:induction false} DigitPrefixStops(d: string, rest: string)
    requires AllDigits(d)
    requires |rest| == 0 || !IsDigit(rest[0])
    ensures DigitPrefix(d + rest) == d
  {
    if |d| > 0 {
      assert (d + rest)[1..] == d[1..] + rest;
      DigitPrefixStops(d[1..], rest);
    } else {
      assert d + rest == rest;
    }
  }

  /** Parsing stops at the first non-digit: the decimal spelling of n followed by
      anything that does not start with a digit parses back to n. */
  lemma {:induction false} DecimalRoundTrip(n: nat, rest: string)
    requires |rest| == 0 || !IsDigit(rest[0])
    ensures ParseInt(Decimal(n) + rest) == Int(n)
  {
    var s := Decimal(n) + rest;
    assert IsDigit(s[0]);
    assert !IsStrWhiteSpace(s[0]);
    assert TrimStart(s) == s;
    assert s[0] != '-' && s[0] != '+';
    DigitPrefixStops(Decimal(n), rest);
    DecimalValue(n);
  }

  lemma {:induction false} TrimStartSkips(w: string, s: string)
    requires forall i :: 0 <= i < |w| ==> IsStrWhiteSpace(w[i])
    ensures TrimStart(w + s) == TrimStart(s)
  {
    if |w| > 0 {
      assert (w + s)[0] == w[0];
      assert (w + s)[1..] == w[1..] + s;
      TrimStartSkips(w[1..], s);
    } else {
      assert w + s == s;
    }
  }

  /** Leading white space does not change what `parseInt` reads. */
  lemma {:induction false} WhiteSpaceSkipped(w: string, s: string)
    requires forall i :: 0 <= i < |w| ==> IsStrWhiteSpace(w[i])
    ensures ParseInt(w + s) == ParseInt(s)
  {
    TrimStartSkips(w, s);
  }

  /** Text containing no digit at all parses to NaN. */
  lemma {:induction false} NoDigitsIsNaN(s: string)
    requires forall i :: 0 <= i < |s| ==> !IsDigit(s[i])
    ensures ParseInt(s) == NaN
  {
    var t := TrimStart(s);
    var u := if |t| > 0 && (t[0] == '-' || t[0] == '+') then t[1..] else t;
    assert |u| > 0 ==> u[0] == s[|s| - |u|];
  }

  /** A leading minus sign negates the parsed value. */
  lemma {:induction false} NegativeRoundTrip(n: nat)
    ensures ParseInt("-" + Decimal(n)) == Int(-(n as int))
  {
    var s := "-" + Decimal(n);
    assert s[0] == '-' && !IsStrWhiteSpace(s[0]);
    assert TrimStart(s) == s;
    assert s[1..] == Decimal(n) + [];
    DigitPrefixStops(Decimal(n), []);
    DecimalValue(n);
  }
}
