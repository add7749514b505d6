/** The dominant emotion of a detection (components/WebcamFeed.tsx): the
    entries of the expression record sorted by descending confidence with a
    stable sort, then the first one taken. */
module Emotion {
  import opened Wrappers

  /** One entry of the expression record, in the record's own entry order. */
  datatype Expression = Expression(emotion: string, confidence: real)

  /** Entries in descending order of confidence. */
  ghost predicate SortedDescending(s: seq<Expression>) {
    forall i, j :: 0 <= i < j < |s| ==> s[i].confidence >= s[j].confidence
  }

  /** Inserts `x`, which precedes every entry of `t` in the input, before the
      first entry of `t` that does not beat it: ties keep input order. */
  function Insert(x: Expression, t: seq<Expression>): (r: seq<Expression>)
    ensures |r| == |t| + 1 && multiset(r) == multiset(t) + multiset{x}
    ensures r[0] == if t == [] || x.confidence >= t[0].confidence then x else t[0]
  {
    if t == [] then [x]
    else if x.confidence >= t[0].confidence then [x] + t
    else
      var rest := Insert(x, t[1..]);
      assert t == [t[0]] + t[1..];
      [t[0]] + rest
  }

  /** A stable sort by descending confidence, as `sort((a, b) => b[1] - a[1])`. */
  function SortByConfidence(s: seq<Expression>): (r: seq<Expression>)
    ensures |r| == |s| && multiset(r) == multiset(s)
  {
    if s == [] then []
    else
      assert s == [s[0]] + s[1..];
      Insert(s[0], SortByConfidence(s[1..]))
  }

  /** Inserting an entry no higher than `b` into entries no higher than `b`
      gives entries no higher than `b`. */
  lemma {:induction false} InsertBounded(x: Expression, t: seq<Expression>, b: real)
    requires x.confidence <= b
    requires forall k :: 0 <= k < |t| ==> t[k].confidence <= b
    ensures forall k :: 0 <= k < |Insert(x, t)| ==> Insert(x, t)[k].confidence <= b
  {
    if t != [] && x.confidence < t[0].confidence {
      InsertBounded(x, t[1..], b);
    }
  }

  lemma {:induction false} InsertSorted(x: Expression, t: seq<Expression>)
    requires SortedDescending(t)
    ensures SortedDescending(Insert(x, t))
  {
    if t != [] && x.confidence < t[0].confidence {
      InsertSorted(x, t[1..]);
      InsertBounded(x, t[1..], t[0].confidence);
    }
  }

  /** The sort's output is ordered by descending confidence. */
  lemma {:induction false} SortByConfidenceSorted(s: seq<Expression>)
    ensures SortedDescending(SortByConfidence(s))
  {
    if s != [] {
      SortByConfidenceSorted(s[1..]);
      InsertSorted(s[0], SortByConfidence(s[1..]));
    }
  }

  /** `k` holds the maximum confidence and no earlier entry reaches it. */
  ghost predicate IsFirstMax(s: seq<Expression>, k: int) {
    0 <= k < |s| &&
    (forall j :: 0 <= j < |s| ==> s[j].confidence <= s[k].confidence) &&
    (forall j :: 0 <= j < k ==> s[j].confidence < s[k].confidence)
  }

  /** Reference definition: the index of the first maximum, by a left-to-right scan. */
  function FirstMaxIndex(s: seq<Expression>): (k: nat)
    requires |s| > 0
    ensures IsFirstMax(s, k)
  {
    if |s| == 1 then 0
    else
      var k := FirstMaxIndex(s[1..]);
      if s[0].confidence >= s[k + 1].confidence then 0 else k + 1
  }

  /** There is only one first maximum. */
  lemma FirstMaxUnique(s: seq<Expression>, k: int, m: int)
    requires IsFirstMax(s, k) && IsFirstMax(s, m)
    ensures k == m
  {
    assert s[k].confidence == s[m].confidence;
  }

  /** The head of the stable descending sort is the first maximum. */
  lemma {:induction false} SortHeadIsFirstMax(s: seq<Expression>)
    requires |s| > 0
    ensures SortByConfidence(s)[0] == s[FirstMaxIndex(s)]
  {
    if |s| > 1 {
      SortHeadIsFirstMax(s[1..]);
    }
  }

  /** `Object.entries(e).sort(...)[0][0]`; None where the source indexes an
      empty array and throws. */
  function DominantEmotion(s: seq<Expression>): Option<string> {
    if s == [] then None else Some(SortByConfidence(s)[0].emotion)
  }

  /** The dominant emotion exists exactly for a non-empty record, and it is the
      emotion of the first entry holding the maximum confidence. */
  lemma DominantEmotionIsFirstMax(s: seq<Expression>)
    ensures DominantEmotion(s).None? <==> s == []
    ensures s != [] ==>
              exists k :: IsFirstMax(s, k) && DominantEmotion(s) == Some(s[k].emotion)
  {
    if s != [] {
      SortHeadIsFirstMax(s);
      var k := FirstMaxIndex(s);
      assert IsFirstMax(s, k) && DominantEmotion(s) == Some(s[k].emotion);
    }
  }

  /** A clear winner: `{happy: 0.9, neutral: 0.1}` reads as "happy". */
  lemma DominantHappy()
    ensures DominantEmotion([Expression("happy", 0.9), Expression("neutral", 0.1)]) == Some("happy")
  {
  }

  /** A tie goes to the entry that comes first. */
  lemma DominantTie()
    ensures DominantEmotion([Expression("sad", 0.5), Expression("angry", 0.5)]) == Some("sad")
  {
  }
}
