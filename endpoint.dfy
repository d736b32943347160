/** The non-framework logic of the `/analyze` handler: URL check, fetch,
    analysis and the shape of the response. */
module Endpoint {
  import opened Types
  import opened Text
  import opened Fetcher
  import opened Sentiment
  import opened Issues
  import opened Ranking
  import opened Analyzer

  const Domain: string := "daraz.pk"
  const SampleSize: nat := 3

  /** One entry of `common_issues`: `{"issue": name, "count": count}`. */
  datatype IssueEntry = IssueEntry(issue: string, count: nat)

  /** The `common_issues` list built from the ranked issues, in their order. */
  function IssueEntries(issues: seq<IssueCount>): (r: seq<IssueEntry>)
    ensures |r| == |issues|
  {
    seq(|issues|, i requires 0 <= i < |issues| => IssueEntry(issues[i].category.Name(), issues[i].count))
  }

  datatype Response =
      /** The URL lacks the marketplace domain (an error response). */
    | InvalidUrl
      /** `{"status": "success", "message": "No reviews found", ...}`. */
    | NoReviewsFound
    | Success(
        reviewsCount: nat,
        positive: nat,
        negative: nat,
        neutral: int,
        commonIssues: seq<IssueEntry>,
        sampleReviews: seq<Review>)

  /** `analyze_product` for a page count the framework has accepted (1 to
      3); also returns the page requests made. */
  method AnalyzeProduct(url: string, maxPages: int, fetch: Request -> PageOutcome, classify: string -> Option<string>)
    returns (response: Response, requests: seq<Request>)
    requires 1 <= maxPages <= 3
    ensures response.InvalidUrl? <==> !Contains(url, Domain)
    ensures requests == if response.InvalidUrl? then [] else Requested(url, maxPages, fetch)
    ensures response.NoReviewsFound? <==> Contains(url, Domain) && Fetched(url, maxPages, fetch) == []
    ensures response.Success? ==>
      var reviews := Fetched(url, maxPages, fetch);
      var labels := Labels(reviews, classify);
      && response.reviewsCount == |reviews| > 0
      && response.positive == Count(labels, POSITIVE)
      && response.negative == Count(labels, NEGATIVE)
      && response.neutral == CountOthers(labels)
      && response.positive + response.negative + response.neutral == response.reviewsCount
      && response.commonIssues == IssueEntries(IssuesOf(reviews, classify))
      && |response.commonIssues| <= TopN
      && response.sampleReviews <= reviews
      && |response.sampleReviews| == Min(SampleSize, |reviews|)
  {
    if !Contains(url, Domain) {
      return InvalidUrl, [];
    }
    var reviews;
    reviews, requests := GetDarazReviews(url, maxPages, fetch);
    if |reviews| == 0 {
      return NoReviewsFound, requests;
    }
    var analysis, _ := AnalyzeReviews(reviews, classify);
    IssuesReportedAtMostTopN(reviews, classify);
    var stats := analysis.stats;
    response := Success(
      |reviews|,
      stats.positive,
      stats.negative,
      stats.neutral,
      IssueEntries(analysis.issues),
      reviews[..Min(SampleSize, |reviews|)]);
  }

  lemma IssuesReportedAtMostTopN(reviews: seq<Review>, classify: string -> Option<string>)
    ensures |IssuesOf(reviews, classify)| <= TopN
  {
    NegativesHaveContent(reviews, classify);
    IssuesCounted(Hits(Negatives(reviews, Labels(reviews, classify))));
  }
}
