# Daraz review analysis pipeline, modelled in Dafny

This project models the review pipeline of a small service that analyses
product reviews from the Daraz marketplace (`daraz_scraper.py`):

- **Fetching** (`get_daraz_reviews`). The product id is the digit run of the
  first `-i<digits>` in the URL. Pages `1..max_pages` of the remote review
  listing are then requested in order. A page that fails is skipped. The
  first page that comes back with no items ends the loop. Every item becomes
  one review record, and fields the item lacks stay absent.
- **Sentiment** (`analyze_reviews`, first half). Each review's content is cut
  to 512 characters and handed to a classifier. A review with no content, or
  one on which the classifier raises, is `NEUTRAL`. The counts are positive,
  negative, and neutral, where neutral is the total minus the other two.
- **Issues** (`analyze_reviews`, second half). The content of each negative
  review is lower-cased. It goes to the first category, in declared order
  (quality, delivery, price, description, service), that has a keyword
  occurring in it. The per-category tally keeps the order in which
  categories were first incremented. It is sorted stably by count, largest
  first, and cut to five entries.
- **Handler shaping** (`analyze_product`). This covers the `daraz.pk` URL
  check, the "No reviews found" branch, `reviews_count`, the sentiment
  counts, the issue list, and the first three reviews as a sample.

The remote listing is a parameter `fetch: Request -> PageOutcome`, where
`PageOutcome` is `Fail | Ok(items)`. The sentiment model is a parameter
`classify: string -> Option<string>`, where `None` means it raised. The
fetch also returns the requests it made. The analysis also returns the texts
it passed to the classifier. This makes "which pages are requested" and
"what the classifier sees" statements about outputs.

Modules: `Types` (records), `Text` (substring search, ASCII lower-casing,
prefix slicing), `ProductIds`, `Fetcher`, `Sentiment`, `Issues` (category
matching and the tally), `Ranking` (stable sort and top five), `Analyzer`,
and `Endpoint`.

Three consequences of the code are worth stating:

- Issues with equal counts are listed in the order in which their
  categories were first incremented, not in the declared category order.
  The tally is a `defaultdict`, whose order is the order of first
  increment, and the stable sort keeps that order
  (`Ranking.TiesByFirstIncrement` shows a case where the two orders differ).
- Quality is checked before delivery, so a negative review containing
  "late delivery" goes to `delivery` only when no quality keyword also
  occurs in it.
- The cut to five entries never removes anything, because there are only
  five categories (`Ranking.TallyFitsTopN`).

## Model

| member | source | states |
|---|---|---|
| `Text.Prefix` | daraz_scraper.py:67 | `content[:512]` is a prefix of the content, of length min(512, length) |
| `Text.Lower` | daraz_scraper.py:90 | `.lower()` keeps the length, leaves no upper-case ASCII letter, maps each upper-case letter to its lower-case form and keeps every other character |
| `Text.Contains` | daraz_scraper.py:92 | `keyword in content` holds exactly when the keyword occurs at some position of the content |
| `Types.ToReview` | daraz_scraper.py:37-43 | each review field is the item's corresponding field (`buyerName` to author, `reviewTime` to date, `likeCount` to likes, ...), absent when the item lacks it |
| `ProductIds.DigitsEnd` | daraz_scraper.py:22 | the greedy `\d+` ends at the first non-digit (or the end) after a run of digits |
| `ProductIds.FirstMatch` | daraz_scraper.py:22 | the search finds the leftmost position where `-i` is followed by a digit, or reports that there is none |
| `ProductIds.ProductId` | daraz_scraper.py:22-26 | no id exactly when no `-i<digit>` occurs; otherwise the id is the maximal, non-empty digit run after the first occurrence |
| `ProductIds.NoDigitAfterMarker` | daraz_scraper.py:22-24 | a URL whose only `-i` is followed by a letter has no id |
| `ProductIds.FirstMarkerWins` | daraz_scraper.py:22-26 | with two markers, the id is the whole digit run after the first one |
| `Fetcher.LastPageFrom` | daraz_scraper.py:29-50 | the last page requested is the first end page (success with no items) or `max_pages`; no earlier page is an end page |
| `Fetcher.GetDarazReviews` | daraz_scraper.py:20-52 | the reviews and the requests are those of pages 1 up to the last page requested, for the extracted id; nothing without an id |
| `Fetcher.AppendItems` | daraz_scraper.py:36-43 | the item loop appends one review per item of the page, in item order |
| `Fetcher.RequestedPages` | daraz_scraper.py:22-50 | requests are for pages 1, 2, ... in order, never beyond `max_pages`; the loop ends early only at an end page; without an id nothing is requested or returned |
| `Fetcher.NoIdNoRequests` | daraz_scraper.py:22-24 | a URL without the pattern gives no request and no review |
| `Fetcher.Collected` | daraz_scraper.py:29-43 | the reviews of pages 1..n in page order; later pages only append, so the reviews of the first m pages are a prefix of those of the first n |
| `Fetcher.PageBlock` | daraz_scraper.py:36-43 | the items of one page appear as one block, in item order, after those of earlier pages |
| `Fetcher.CollectedFromItems` | daraz_scraper.py:36-43 | every review returned is the copy of one item of a requested page (failed pages contribute none) |
| `Sentiment.Label` | daraz_scraper.py:66-71 | a review without content is `NEUTRAL`; otherwise its label is the classifier's label on the first 512 characters, or `NEUTRAL` when the classifier raises |
| `Sentiment.LabelAll` | daraz_scraper.py:64-71 | one label per review in order: the classifier's label on the first 512 characters, `NEUTRAL` without content or when it raises; returns the texts classified |
| `Sentiment.LabelSeesOnlyPrefix` | daraz_scraper.py:67-68 | a review's label depends only on whether it has content and on its first 512 characters |
| `Sentiment.QueriesAreClipped` | daraz_scraper.py:65-68 | each classified text has at most 512 characters and is the prefix of some review's content; there are at most as many as reviews |
| `Sentiment.Count` | daraz_scraper.py:73-74 | `sum(1 for s in labels if s == x)` is the number of occurrences of `x` among the labels |
| `Sentiment.CountOthers` | daraz_scraper.py:75 | the labels other than `POSITIVE` and `NEGATIVE` number the total minus the positive and negative counts, so `neu` is that count and never negative |
| `Issues.Rank` | daraz_scraper.py:81-87 | each category has a position in the declared order |
| `Issues.AnyKeyword` | daraz_scraper.py:92 | true exactly when some keyword of the list is a substring of the text |
| `Issues.FirstMentioned` | daraz_scraper.py:91-94 | returns the first category, in declared order, that the text mentions, or none if none is mentioned |
| `Issues.IssueOf` | daraz_scraper.py:90-94 | a review's category is mentioned by its lower-cased content and no earlier category is; none exactly when no category is mentioned |
| `Issues.Find` | daraz_scraper.py:93 | dictionary lookup: the index of the entry for a category, or past the end when absent |
| `Issues.Increment` | daraz_scraper.py:93 | `issue_counts[c] += 1` on a `defaultdict`: the count of `c` goes up by one and no other count changes; when `c` is a key no entry is added and keys keep their place, otherwise the entry `(c, 1)` is appended at the end |
| `Issues.IncrementFirstMentioned` | daraz_scraper.py:91-94 | the inner loop with `break` increments exactly the first category in declared order that the content mentions, and nothing when none is mentioned |
| `Issues.TallyIssues` | daraz_scraper.py:89-94 | the outer loop lower-cases each negative review's content and computes the tally of the negative reviews' categories |
| `Issues.TallyKeys` | daraz_scraper.py:79-94 | the tally has each category at most once, and exactly the categories some negative review fell in |
| `Issues.TallyCounts` | daraz_scraper.py:89-94 | each entry's count is the number of negative reviews in its category, at least 1 |
| `Issues.TallyOrder` | daraz_scraper.py:79-94 | entries are in order of first increment, that is, of the first negative review in each category |
| `Issues.TallySum` | daraz_scraper.py:89-94 | the counts add up to the number of negative reviews that matched some category |
| `Issues.LateDeliveryIsDelivery` | daraz_scraper.py:82-94 | content containing "late delivery" and no quality keyword goes to delivery |
| `Issues.QualityBeforePrice` | daraz_scraper.py:82-94 | content with a quality and a price keyword, in any case, goes to quality |
| `Ranking.SortDesc` | daraz_scraper.py:98 | sorting only reorders the entries: same multiset, same length |
| `Ranking.TopIssues` | daraz_scraper.py:98 | `[:5]` of the sorted entries: a prefix of them, of length min(5, number of entries) |
| `Ranking.SortNonIncreasing` | daraz_scraper.py:98 | sorted counts are non-increasing |
| `Ranking.SortRanked` | daraz_scraper.py:98 | the sort is stable: entries with equal counts keep their input order |
| `Ranking.SortSum` | daraz_scraper.py:98 | sorting keeps the sum of the counts |
| `Ranking.TallyFitsTopN` | daraz_scraper.py:81-98 | the tally has at most five entries, so the cut to five never drops one |
| `Ranking.IssuesCounted` | daraz_scraper.py:89-98 | the issues reported are at most five, each with count ≥ 1 equal to its number of negative reviews, every matched category present, and counts adding up to the matched reviews |
| `Ranking.IssuesOrdered` | daraz_scraper.py:79-98 | issues reported are ordered by count, largest first, with ties ordered by first appearance among negative reviews |
| `Ranking.TiesByFirstIncrement` | daraz_scraper.py:79-98 | a price complaint seen before a quality complaint is listed first when both counts are 1 |
| `Analyzer.AnalyzeReviews` | daraz_scraper.py:54-99 | empty input gives the short result with no classifier call; otherwise total, positive, negative and neutral (summing to total) and the ranked issues of the negative reviews |
| `Analyzer.Negatives` | daraz_scraper.py:78 | the zip-and-filter keeps at most one review per review, and exactly one per `NEGATIVE` label |
| `Analyzer.NegativeAt` | daraz_scraper.py:78 | a review labelled `NEGATIVE` at index i is the k-th negative review, where k is the number of `NEGATIVE` labels before i |
| `Analyzer.NegativesInOrder` | daraz_scraper.py:78 | every review labelled `NEGATIVE` is kept, in review order |
| `Analyzer.NegativesFrom` | daraz_scraper.py:78 | every kept review is a review labelled `NEGATIVE` |
| `Analyzer.NegativesHaveContent` | daraz_scraper.py:64-78 | the negative reviews are one per `NEGATIVE` label, each labelled `NEGATIVE` and each with content |
| `Analyzer.IssuesWithinNegatives` | daraz_scraper.py:73-98 | the issue counts add up to at most the negative count |
| `Endpoint.AnalyzeProduct` | daraz_scraper.py:111-147 | a URL without "daraz.pk" is rejected before any request; no reviews gives the "No reviews found" response; otherwise the count, sentiment counts, the issues as `{issue, count}` entries named by category and in ranked order, and a sample of the first up-to-3 reviews |
| `Endpoint.IssuesReportedAtMostTopN` | daraz_scraper.py:98 | `common_issues` has at most five entries |

## Left out

- The default `max_pages = 3` of `get_daraz_reviews` (daraz_scraper.py:20) is not modelled: `Fetcher.GetDarazReviews` always takes the page count, as its only caller passes it.
- HTTP transport and JSON decoding (daraz_scraper.py:30-34) are the `fetch` parameter. The fixed query parameters of the request URL (page size 20, filter, sort) are not represented.
- Reviews appended before an exception partway through a page's items are not modelled. A page either fails as a whole or yields all of its items.
- Item fields of an unexpected JSON type are not modelled. Fields are strings or integers, and a missing field is absent.
- The transformers sentiment pipeline (daraz_scraper.py:13-18, 68) is the `classify` parameter. Its own token-level truncation and its confidence score are not modelled.
- `str.lower()` is ASCII lower-casing, and `\d` matches ASCII digits only. Python's Unicode case mapping and Unicode digits are not modelled.
- `positive_percent` and `negative_percent` (daraz_scraper.py:138-139) are float division and formatting, and are not modelled.
- HTTP status codes and exception detail strings (daraz_scraper.py:113, 149-150) are not modelled. An invalid URL is the `InvalidUrl` response. In the source, the 400 raised for it is caught by the outer `except` and re-raised as a 500.
- FastAPI routing, `async`, `print` logging and `uvicorn.run` (daraz_scraper.py:1-10, 101-105, 115, 152-153) are not modelled. The `Query` bounds on `max_pages` (1 to 3) become the precondition of `Endpoint.AnalyzeProduct`.
- The constant `time_taken: 0` and `analysis: None` keys of the empty results are represented only by the `NoReviews` and `NoReviewsFound` constructors.
