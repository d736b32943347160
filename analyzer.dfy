/** `analyze_reviews`: sentiment counts over all reviews and issue
    categories over the negative ones. */
module Analyzer {
  import opened Types
  import opened Sentiment
  import opened Issues
  import opened Ranking

  datatype Stats = Stats(total: nat, positive: nat, negative: nat, neutral: int)

  datatype Analysis =
    | NoReviews   // the short result for no reviews: total 0, no issues
    | Report(stats: Stats, issues: seq<IssueCount>)

  /** `[r for r, s in zip(reviews, labels) if s == 'NEGATIVE']`. */
  function Negatives(reviews: seq<Review>, labels: seq<string>): (r: seq<Review>)
    ensures |r| <= |reviews|
    ensures |reviews| == |labels| ==> |r| == Count(labels, NEGATIVE)
  {
    if reviews == [] || labels == [] then []
    else (if labels[0] == NEGATIVE then [reviews[0]] else []) + Negatives(reviews[1..], labels[1..])
  }

  /** The issues reported for `reviews`. */
  function IssuesOf(reviews: seq<Review>, classify: string -> Option<string>): seq<IssueCount>
  {
    var negatives := Negatives(reviews, Labels(reviews, classify));
    NegativesHaveContent(reviews, classify);
    TopIssues(Tally(Hits(negatives)))
  }

  /** `analyze_reviews`, returning also the texts handed to the classifier. */
  method AnalyzeReviews(reviews: seq<Review>, classify: string -> Option<string>)
    returns (a: Analysis, seen: seq<string>)
    ensures reviews == [] ==> a == NoReviews && seen == []
    ensures reviews != [] ==>
      var labels := Labels(reviews, classify);
      && a.Report?
      && a.stats.total == |reviews|
      && a.stats.positive == Count(labels, POSITIVE)
      && a.stats.negative == Count(labels, NEGATIVE)
      && a.stats.neutral == CountOthers(labels)
      && a.stats.positive + a.stats.negative + a.stats.neutral == a.stats.total
      && a.issues == IssuesOf(reviews, classify)
    ensures seen == Queries(reviews)
  {
    if |reviews| == 0 {
      return NoReviews, [];
    }
    var sentiments;
    sentiments, seen := LabelAll(reviews, classify);
    var pos := Count(sentiments, POSITIVE);
    var neg := Count(sentiments, NEGATIVE);
    var neu := |reviews| - pos - neg;
    var negatives := Negatives(reviews, sentiments);
    NegativesHaveContent(reviews, classify);
    var counts := TallyIssues(negatives);
    a := Report(Stats(|reviews|, pos, neg, neu), TopIssues(counts));
  }

  /** Every negative review is a review labelled `NEGATIVE`. */
  lemma {:induction false} NegativesFrom(reviews: seq<Review>, labels: seq<string>)
    requires |reviews| == |labels|
    ensures forall r :: r in Negatives(reviews, labels) ==>
              exists i :: 0 <= i < |reviews| && reviews[i] == r && labels[i] == NEGATIVE
    decreases |reviews|
  {
    if reviews != [] {
      NegativesFrom(reviews[1..], labels[1..]);
      forall r | r in Negatives(reviews, labels)
        ensures exists i :: 0 <= i < |reviews| && reviews[i] == r && labels[i] == NEGATIVE
      {
        if r in Negatives(reviews[1..], labels[1..]) {
          var i :| 0 <= i < |reviews[1..]| && reviews[1..][i] == r && labels[1..][i] == NEGATIVE;
          assert reviews[i + 1] == r && labels[i + 1] == NEGATIVE;
        } else {
          assert reviews[0] == r && labels[0] == NEGATIVE;
        }
      }
    }
  }

  /** The review at index `i` with a `NEGATIVE` label sits among the
      negative reviews at the position given by the number of `NEGATIVE`
      labels before `i`. */
  lemma {:induction false} NegativeAt(reviews: seq<Review>, labels: seq<string>, i: nat)
    requires |reviews| == |labels| && i < |reviews| && labels[i] == NEGATIVE
    ensures Count(labels[..i], NEGATIVE) < |Negatives(reviews, labels)|
    ensures Negatives(reviews, labels)[Count(labels[..i], NEGATIVE)] == reviews[i]
    decreases i
  {
    var rest := Negatives(reviews[1..], labels[1..]);
    var head := if labels[0] == NEGATIVE then [reviews[0]] else [];
    assert Negatives(reviews, labels) == head + rest;
    if i > 0 {
      NegativeAt(reviews[1..], labels[1..], i - 1);
      var before := labels[1..][..i - 1];
      assert labels[..i] == [labels[0]] + before;
      assert Count(labels[..i], NEGATIVE) == |head| + Count(before, NEGATIVE);
    }
  }

  /** The negative reviews keep review order and miss none. */
  lemma NegativesInOrder(reviews: seq<Review>, labels: seq<string>)
    requires |reviews| == |labels|
    ensures forall i :: 0 <= i < |reviews| && labels[i] == NEGATIVE ==>
              Count(labels[..i], NEGATIVE) < |Negatives(reviews, labels)|
              && Negatives(reviews, labels)[Count(labels[..i], NEGATIVE)] == reviews[i]
  {
    forall i | 0 <= i < |reviews| && labels[i] == NEGATIVE
      ensures Count(labels[..i], NEGATIVE) < |Negatives(reviews, labels)|
      ensures Negatives(reviews, labels)[Count(labels[..i], NEGATIVE)] == reviews[i]
    {
      NegativeAt(reviews, labels, i);
    }
  }

  /** The negative reviews are the reviews labelled `NEGATIVE`, one for each
      such label; they all have content, so lower-casing it cannot fail. */
  lemma NegativesHaveContent(reviews: seq<Review>, classify: string -> Option<string>)
    ensures var negatives := Negatives(reviews, Labels(reviews, classify));
      && |negatives| == Count(Labels(reviews, classify), NEGATIVE)
      && forall i :: 0 <= i < |negatives| ==>
           Label(negatives[i], classify) == NEGATIVE && negatives[i].content.Some?
  {
    var labels := Labels(reviews, classify);
    NegativesFrom(reviews, labels);
    var negatives := Negatives(reviews, labels);
    forall i | 0 <= i < |negatives|
      ensures Label(negatives[i], classify) == NEGATIVE && negatives[i].content.Some?
    {
      assert negatives[i] in negatives;
    }
  }

  /** Each negative review adds to at most one category and the other
      reviews add nothing, so the issue counts add up to at most the
      negative count. */
  lemma IssuesWithinNegatives(reviews: seq<Review>, classify: string -> Option<string>)
    ensures SumCounts(IssuesOf(reviews, classify)) <= Count(Labels(reviews, classify), NEGATIVE)
  {
    var negatives := Negatives(reviews, Labels(reviews, classify));
    NegativesHaveContent(reviews, classify);
    var hits := Hits(negatives);
    IssuesCounted(hits);
  }
}
