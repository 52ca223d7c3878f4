/** The explanation markup (`createMarkup` in src/components/quiz/ResultsClient.tsx and
    its copy in QuizClient.tsx): every `**x**` becomes `<strong>x</strong>`, where x is
    the shortest run with no line terminator, scanning left to right, as the global
    replace of the pattern `\*\*(.*?)\*\*` does. Only the string rewrite is modelled. */
module Markup {
  import opened Wrappers

  const OpenTag := "<strong>"
  const CloseTag := "</strong>"

  /** The characters `.` does not match in a JavaScript regular expression. */
  predicate IsLineTerminator(c: char)
  {
    c == '\n' || c == '\r' || c == '\U{2028}' || c == '\U{2029}'
  }

  predicate StarsAt(t: string, i: int)
  {
    0 <= i && i + 1 < |t| && t[i] == '*' && t[i + 1] == '*'
  }

  predicate NoLineTerminator(t: string)
  {
    forall i :: 0 <= i < |t| ==> !IsLineTerminator(t[i])
  }

  /** No line terminator among the first k characters of t. */
  predicate ClearUpTo(t: string, k: int)
  {
    forall i :: 0 <= i < k && i < |t| ==> !IsLineTerminator(t[i])
  }

  /** Where the lazy `(.*?)\*\*` ends when tried at the start of u: the first `**`
      reachable without crossing a line terminator. */
  function FindClose(u: string): (r: Option<nat>)
    ensures r.Some? ==> StarsAt(u, r.value) && ClearUpTo(u, r.value)
    ensures r.Some? ==> forall j :: 0 <= j < r.value ==> !StarsAt(u, j)
    ensures r.None? ==> forall k :: StarsAt(u, k) ==> !ClearUpTo(u, k)
  {
    if StarsAt(u, 0) then Some(0)
    else if |u| > 0 && !IsLineTerminator(u[0]) then
      ShiftByOne(u);
      match FindClose(u[1..])
      case None => None
      case Some(k) => Some(k + 1)
    else None
  }

  lemma ShiftByOne(u: string)
    requires |u| > 0 && !IsLineTerminator(u[0])
    ensures forall j :: 1 <= j ==> (StarsAt(u, j) <==> StarsAt(u[1..], j - 1))
    ensures forall k :: 1 <= k ==> (ClearUpTo(u, k) <==> ClearUpTo(u[1..], k - 1))
  {
    forall k | 1 <= k
      ensures ClearUpTo(u, k) <==> ClearUpTo(u[1..], k - 1)
    {
      if ClearUpTo(u[1..], k - 1) {
        forall i | 0 <= i < k && i < |u| ensures !IsLineTerminator(u[i]) {
          if i > 0 { assert u[i] == u[1..][i - 1]; }
        }
      }
    }
  }

  /** The rewrite itself. It never shortens the text: each rewritten pair replaces its
      four asterisks with the seventeen characters of the tags, 13 more, so the output
      is longer by a multiple of thirteen, and text it leaves the same length is left
      unchanged. */
  function Embolden(t: string): (r: string)
    ensures |r| >= |t| && (|r| - |t|) % 13 == 0
    ensures |r| == |t| ==> r == t
    decreases |t|
  {
    if |t| == 0 then ""
    else if StarsAt(t, 0) && FindClose(t[2..]).Some? then
      var k := FindClose(t[2..]).value;
      var rest := Embolden(t[2 + k + 2..]);
      assert |OpenTag + t[2..2 + k] + CloseTag| == 17 + k;
      OpenTag + t[2..2 + k] + CloseTag + rest
    else
      var rest := Embolden(t[1..]);
      assert t == [t[0]] + t[1..];
      [t[0]] + rest
  }

  /** `createMarkup`: empty text gives empty markup. */
  function CreateMarkup(text: string): (r: string)
    ensures text == "" ==> r == ""
  {
    if text == "" then "" else Embolden(text)
  }

  /** Text without any `**` comes back unchanged. */
  lemma {:induction false} NoMarkersUnchanged(t: string)
    requires forall i :: !StarsAt(t, i)
    ensures CreateMarkup(t) == t
    decreases |t|
  {
    if |t| > 0 {
      assert forall i :: !StarsAt(t[1..], i) by {
        forall i ensures !StarsAt(t[1..], i) {
          assert StarsAt(t[1..], i) ==> StarsAt(t, i + 1);
        }
      }
      NoMarkersUnchanged(t[1..]);
      assert Embolden(t) == [t[0]] + Embolden(t[1..]);
    }
  }

  /** A leading `**x**`, with x the shortest run free of line terminators, becomes
      `<strong>x</strong>`, and the rewrite continues after the closing `**`. */
  lemma PairIsBolded(x: string, rest: string)
    requires NoLineTerminator(x)
    requires forall j :: 0 <= j < |x| ==> !StarsAt(x + "**" + rest, j)
    ensures Embolden("**" + x + "**" + rest) == OpenTag + x + CloseTag + Embolden(rest)
  {
    var t := "**" + x + "**" + rest;
    var u := t[2..];
    assert u == x + "**" + rest;
    assert StarsAt(u, |x|);
    var c := FindClose(u);
    assert c.Some? && c.value == |x| by {
      assert ClearUpTo(u, |x|);
    }
    assert t[2..2 + |x|] == x;
    assert t[2 + |x| + 2..] == rest;
  }

  /** Where no `**x**` starts, the first character is copied and the scan moves one
      character on: so an unpaired `**` is left as it is. */
  lemma UnmatchedIsCopied(t: string)
    requires |t| > 0
    requires !StarsAt(t, 0) || forall k :: StarsAt(t[2..], k) ==> !ClearUpTo(t[2..], k)
    ensures Embolden(t) == [t[0]] + Embolden(t[1..])
  {
  }

  /** `**` with no closing `**` on the same line stays literally. */
  lemma UnpairedStaysLiteral(x: string)
    requires NoLineTerminator(x) && forall i :: !StarsAt(x, i)
    requires |x| == 0 || x[0] != '*'
    ensures CreateMarkup("**" + x) == "**" + x
  {
    var t := "**" + x;
    assert forall i :: 1 <= i ==> !StarsAt(t, i) by {
      forall i | 1 <= i ensures !StarsAt(t, i) {
        if i >= 2 { assert StarsAt(t, i) ==> StarsAt(x, i - 2); }
      }
    }
    assert FindClose(t[2..]).None? by {
      assert t[2..] == x;
    }
    assert t[1..] == "*" + x;
    assert forall i :: !StarsAt(t[1..], i) by {
      forall i ensures !StarsAt(t[1..], i) {
        assert StarsAt(t[1..], i) ==> StarsAt(t, i + 1);
      }
    }
    NoMarkersUnchanged(t[1..]);
    assert t[1..] != "";
  }
}
