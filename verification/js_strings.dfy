/** JavaScript string lengths. A JavaScript string is a sequence of UTF-16 code units,
    so `length`, zod's `.min(n)` and `substring` count a character outside the Basic
    Multilingual Plane twice; a Dafny `string` holds one `char` per code point. */
module JsStrings {
  import opened Wrappers

  /** The code units one character takes in UTF-16. */
  function Units(c: char): (r: nat)
    ensures r == 1 || r == 2
    ensures r == 2 <==> c as int > 0xFFFF
  {
    if c as int > 0xFFFF then 2 else 1
  }

  predicate AllBasic(s: string)
  {
    forall i :: 0 <= i < |s| ==> s[i] as int <= 0xFFFF
  }

  predicate AllAstral(s: string)
  {
    forall i :: 0 <= i < |s| ==> s[i] as int > 0xFFFF
  }

  /** `s.length` in JavaScript: between one and two units per character, exactly one
      for text inside the Basic Multilingual Plane and exactly two outside it. */
  function Utf16Length(s: string): (r: nat)
    ensures |s| <= r <= 2 * |s|
    ensures AllBasic(s) ==> r == |s|
    ensures AllAstral(s) ==> r == 2 * |s|
  {
    if |s| == 0 then 0
    else
      assert AllBasic(s) ==> AllBasic(s[1..]);
      assert AllAstral(s) ==> AllAstral(s[1..]);
      Units(s[0]) + Utf16Length(s[1..])
  }

  /** p is the longest prefix of s whose UTF-16 length is at most n. */
  predicate LongestFit(p: string, s: string, n: nat)
  {
    && p <= s
    && Utf16Length(p) <= n
    && (|p| < |s| ==> Utf16Length(p) + Units(s[|p|]) > n)
  }

  /** `s.substring(0, n)` on whole characters: the longest prefix whose UTF-16 length
      is at most n. For text inside the Basic Multilingual Plane it is the first n
      characters. */
  function Utf16Prefix(s: string, n: nat): (r: string)
    ensures LongestFit(r, s, n)
    ensures AllBasic(s) ==> |r| == Min(|s|, n)
  {
    if |s| == 0 || Units(s[0]) > n then ""
    else
      var rest := Utf16Prefix(s[1..], n - Units(s[0]));
      assert ([s[0]] + rest)[1..] == rest;
      assert AllBasic(s) ==> AllBasic(s[1..]);
      [s[0]] + rest
  }
}
