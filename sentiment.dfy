/** Sentiment labelling of reviews. The classifier is a function from text
    to a label, `None` when it raises. */
module Sentiment {
  import opened Types
  import opened Text

  const MaxChars: nat := 512
  const POSITIVE: string := "POSITIVE"
  const NEGATIVE: string := "NEGATIVE"
  const NEUTRAL: string := "NEUTRAL"

  /** The label of one review: the classifier's label for the first
      `MaxChars` characters of the content; `NEUTRAL` when there is no
      content (slicing `None` raises) or the classifier raises. */
  function Label(r: Review, classify: string -> Option<string>): (name: string)
    ensures r.content.None? ==> name == NEUTRAL
    ensures r.content.Some? ==>
      var answer := classify(Prefix(r.content.value, MaxChars));
      name == if answer.Some? then answer.value else NEUTRAL
  {
    match r.content
    case None => NEUTRAL
    case Some(c) =>
      match classify(Prefix(c, MaxChars))
      case None => NEUTRAL
      case Some(name) => name
  }

  /** One label per review, in review order. */
  function Labels(reviews: seq<Review>, classify: string -> Option<string>): seq<string>
  {
    seq(|reviews|, i requires 0 <= i < |reviews| => Label(reviews[i], classify))
  }

  /** The text handed to the classifier for one review, if any. */
  function QueryOf(r: Review): seq<string>
  {
    match r.content
    case None => []
    case Some(c) => [Prefix(c, MaxChars)]
  }

  /** The texts handed to the classifier, in call order. */
  function Queries(reviews: seq<Review>): seq<string>
  {
    if reviews == [] then []
    else Queries(reviews[..|reviews| - 1]) + QueryOf(reviews[|reviews| - 1])
  }

  /** `sum(1 for s in labels if s == x)`. */
  function Count(labels: seq<string>, x: string): (n: nat)
    ensures n == multiset(labels)[x]
  {
    if labels == [] then 0
    else
      assert labels == [labels[0]] + labels[1..];
      (if labels[0] == x then 1 else 0) + Count(labels[1..], x)
  }

  /** Number of labels that are neither `POSITIVE` nor `NEGATIVE`. */
  function CountOthers(labels: seq<string>): (n: nat)
    ensures n + multiset(labels)[POSITIVE] + multiset(labels)[NEGATIVE] == |labels|
  {
    if labels == [] then 0
    else
      assert labels == [labels[0]] + labels[1..]; (if labels[0] != POSITIVE && labels[0] != NEGATIVE then 1 else 0) + CountOthers(labels[1..])
  }

  /** The labelling loop of `analyze_reviews`: one label per review, and the
      texts it passes to the classifier. */
  method LabelAll(reviews: seq<Review>, classify: string -> Option<string>)
    returns (sentiments: seq<string>, seen: seq<string>)
    ensures sentiments == Labels(reviews, classify)
    ensures seen == Queries(reviews)
  {
    sentiments, seen := [], [];
    for i := 0 to |reviews|
      invariant |sentiments| == i
      invariant forall j :: 0 <= j < i ==> sentiments[j] == Label(reviews[j], classify)
      invariant seen == Queries(reviews[..i])
    {
      assert reviews[..i + 1][..i] == reviews[..i];
      match reviews[i].content {
        case None =>
          sentiments := sentiments + [NEUTRAL];
        case Some(c) =>
          var text := Prefix(c, MaxChars);
          seen := seen + [text];
          match classify(text) {
            case None =>
              sentiments := sentiments + [NEUTRAL];
            case Some(name) =>
              sentiments := sentiments + [name];
          }
      }
    }
    assert reviews[..|reviews|] == reviews;
  }

  /** A review's label depends only on whether it has content and on the
      first `MaxChars` characters of that content. */
  lemma LabelSeesOnlyPrefix(a: Review, b: Review, classify: string -> Option<string>)
    requires a.content.None? <==> b.content.None?
    requires a.content.Some? ==> Prefix(a.content.value, MaxChars) == Prefix(b.content.value, MaxChars)
    ensures Label(a, classify) == Label(b, classify)
  {
  }

  /** Every text the classifier sees is the first at most `MaxChars`
      characters of some review's content; reviews without content are never
      passed to it, so there are at most as many calls as reviews. */
  lemma {:induction false} QueriesAreClipped(reviews: seq<Review>)
    ensures |Queries(reviews)| <= |reviews|
    ensures forall t :: t in Queries(reviews) ==>
              && |t| <= MaxChars
              && exists i :: 0 <= i < |reviews| && reviews[i].content.Some?
                               && t == Prefix(reviews[i].content.value, MaxChars)
    decreases |reviews|
  {
    if reviews != [] {
      var n := |reviews| - 1;
      var front := reviews[..n];
      QueriesAreClipped(front);
      forall t | t in Queries(reviews)
        ensures |t| <= MaxChars
        ensures exists i :: 0 <= i < |reviews| && reviews[i].content.Some?
                              && t == Prefix(reviews[i].content.value, MaxChars)
      {
        if t in Queries(front) {
          var i :| 0 <= i < |front| && front[i].content.Some? && t == Prefix(front[i].content.value, MaxChars);
          assert reviews[i] == front[i];
        } else {
          assert t in QueryOf(reviews[n]);
        }
      }
    }
  }
}
