/** The history kept under the "quizHistory" key: newest first, at most twenty entries
    (src/components/quiz/QuizClient.tsx and src/components/quiz/HistoryClient.tsx). */
module HistoryStore {
  import opened Wrappers
  import opened QuizTypes

  const Cap := 20

  /** Reading the stored history: nothing stored reads as the empty list. */
  function Load(stored: Option<seq<QuizResult>>): (h: seq<QuizResult>)
    ensures stored.None? ==> h == []
    ensures stored.Some? ==> h == stored.value
  {
    match stored
    case None => []
    case Some(entries) => entries
  }

  /** Prepending a result and keeping the first twenty entries. */
  function Push(r: QuizResult, h: seq<QuizResult>): (h': seq<QuizResult>)
    ensures |h'| == Min(|h| + 1, Cap)
    ensures h'[0] == r
    ensures h'[1..] == h[..|h'| - 1]
  {
    ([r] + h)[..Min(|h| + 1, Cap)]
  }

  function Reverse<T>(s: seq<T>): (r: seq<T>)
    ensures |r| == |s|
  {
    if |s| == 0 then [] else Reverse(s[1..]) + [s[0]]
  }

  /** Recording results one after another, oldest first. */
  function PushAll(rs: seq<QuizResult>, h: seq<QuizResult>): seq<QuizResult>
  {
    if |rs| == 0 then h else PushAll(rs[1..], Push(rs[0], h))
  }

  lemma TakeOfTruncated<T>(a: seq<T>, b: seq<T>, m: nat, k: nat)
    requires m <= |b| && k <= |a| + m
    ensures (a + b[..m])[..k] == (a + b)[..k]
  {
    assert forall i :: 0 <= i < k ==> (a + b[..m])[i] == (a + b)[i];
  }

  /** After recording results in order, the history holds the most recent ones, newest
      first, up to the cap: nothing is deduplicated and the oldest fall off the end. */
  lemma {:induction false} PushAllKeepsNewest(rs: seq<QuizResult>, h: seq<QuizResult>)
    requires |h| <= Cap
    ensures PushAll(rs, h) == (Reverse(rs) + h)[..Min(|rs| + |h|, Cap)]
  {
    if |rs| == 0 {
      assert Reverse(rs) + h == h;
    } else {
      var h1 := Push(rs[0], h);
      assert h1 == ([rs[0]] + h)[..|h1|];
      PushAllKeepsNewest(rs[1..], h1);
      var k := Min(|rs| + |h|, Cap);
      assert Min(|rs[1..]| + |h1|, Cap) == k;
      TakeOfTruncated(Reverse(rs[1..]), [rs[0]] + h, |h1|, k);
      assert Reverse(rs[1..]) + ([rs[0]] + h) == Reverse(rs) + h;
    }
  }

  lemma {:induction false} HistoryOfFreshStart(rs: seq<QuizResult>)
    ensures PushAll(rs, []) == Reverse(rs)[..Min(|rs|, Cap)]
  {
    PushAllKeepsNewest(rs, []);
    assert Reverse(rs) + [] == Reverse(rs);
  }
}
