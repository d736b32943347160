/** Paginated fetch of the reviews of one product. The remote listing is a
    function from a request (product id, page number) to a page outcome. */
module Fetcher {
  import opened Types
  import opened ProductIds

  /** A page that succeeds with no items: the end-of-reviews signal. */
  predicate IsEnd(o: PageOutcome)
  {
    o.Ok? && |o.items| == 0
  }

  function ItemsOf(o: PageOutcome): seq<Item>
  {
    match o
    case Fail => []
    case Ok(items) => items
  }

  function ReviewsOf(items: seq<Item>): seq<Review>
  {
    seq(|items|, i requires 0 <= i < |items| => ToReview(items[i]))
  }

  /** Number of the last page requested when the loop is at page `page`:
      the first end page from `page` on, or `maxPages` when there is none. */
  function LastPageFrom(fetch: Request -> PageOutcome, id: string, page: nat, maxPages: int): (last: nat)
    requires 1 <= page
    ensures page - 1 <= last
    ensures last <= page - 1 || last <= maxPages
    ensures forall q :: page <= q < last ==> !IsEnd(fetch(Request(id, q)))
    ensures last < maxPages ==> page <= last && IsEnd(fetch(Request(id, last)))
    decreases maxPages - page
  {
    if page > maxPages then page - 1
    else if IsEnd(fetch(Request(id, page))) then page
    else LastPageFrom(fetch, id, page + 1, maxPages)
  }

  function LastPage(fetch: Request -> PageOutcome, id: string, maxPages: int): nat
  {
    LastPageFrom(fetch, id, 1, maxPages)
  }

  /** The reviews of pages `1..n` in page order, one per item; a failed page
      contributes nothing. Later pages only append: the reviews of the
      first `m` pages are a prefix of those of the first `n`. */
  function Collected(fetch: Request -> PageOutcome, id: string, n: nat): (r: seq<Review>)
    ensures forall m: nat :: m < n ==> Collected(fetch, id, m) <= r
  {
    if n == 0 then []
    else
      var prev := Collected(fetch, id, n - 1);
      var r := prev + ReviewsOf(ItemsOf(fetch(Request(id, n))));
      assert prev <= r;
      forall m: nat | m < n - 1 ensures Collected(fetch, id, m) <= r {
        assert Collected(fetch, id, m) <= prev;
      }
      r
  }

  /** The requests for pages `1..n`, in order. */
  function Requests(id: string, n: nat): (rs: seq<Request>)
  {
    seq(n, i requires 0 <= i < n => Request(id, i + 1))
  }

  /** Requests the fetch makes for `url`. */
  function Requested(url: string, maxPages: int, fetch: Request -> PageOutcome): seq<Request>
  {
    match ProductId(url)
    case None => []
    case Some(id) => Requests(id, LastPage(fetch, id, maxPages))
  }

  /** Reviews the fetch returns for `url`. */
  function Fetched(url: string, maxPages: int, fetch: Request -> PageOutcome): seq<Review>
  {
    match ProductId(url)
    case None => []
    case Some(id) => Collected(fetch, id, LastPage(fetch, id, maxPages))
  }

  /** The item loop of one page: one review per item, appended in order. */
  method AppendItems(reviews: seq<Review>, items: seq<Item>) returns (r: seq<Review>)
    ensures r == reviews + ReviewsOf(items)
  {
    r := reviews;
    for k := 0 to |items|
      invariant r == reviews + ReviewsOf(items[..k])
    {
      assert ReviewsOf(items[..k + 1]) == ReviewsOf(items[..k]) + [ToReview(items[k])];
      r := r + [ToReview(items[k])];
    }
    assert items[..|items|] == items;
  }

  lemma RequestsStep(id: string, n: nat)
    ensures Requests(id, n + 1) == Requests(id, n) + [Request(id, n + 1)]
  {
  }

  /** `get_daraz_reviews`: extracts the product id, then visits pages
      `1..maxPages`, skipping failed pages and stopping after the first
      page that has no items. Also returns the requests made, in order. */
  method GetDarazReviews(url: string, maxPages: int, fetch: Request -> PageOutcome)
    returns (reviews: seq<Review>, requests: seq<Request>)
    ensures reviews == Fetched(url, maxPages, fetch)
    ensures requests == Requested(url, maxPages, fetch)
  {
    var pid := ProductId(url);
    if pid.None? {
      return [], [];
    }
    var id := pid.value;
    reviews, requests := [], [];
    var upper := if maxPages < 0 then 1 else maxPages + 1;
    for page := 1 to upper
      invariant requests == Requests(id, page - 1)
      invariant reviews == Collected(fetch, id, page - 1)
      invariant LastPage(fetch, id, maxPages) == LastPageFrom(fetch, id, page, maxPages)
    {
      var request := Request(id, page);
      RequestsStep(id, page - 1);
      requests := requests + [request];
      var outcome := fetch(request);
      if outcome.Fail? {
        continue;
      }
      reviews := AppendItems(reviews, outcome.items);
      if |outcome.items| == 0 {
        assert LastPage(fetch, id, maxPages) == page;
        break;
      }
    }
  }

  /** The reviews of page `p` form one contiguous block of the output, in
      item order, right after those of pages `1..p-1`. */
  lemma PageBlock(fetch: Request -> PageOutcome, id: string, p: nat, n: nat)
    requires 1 <= p <= n
    ensures Collected(fetch, id, p - 1) + ReviewsOf(ItemsOf(fetch(Request(id, p)))) <= Collected(fetch, id, n)
  {
    if p < n {
      assert Collected(fetch, id, p) <= Collected(fetch, id, n);
    }
  }

  /** Every fetched review is the copy of one item of a requested page. */
  lemma {:induction false} CollectedFromItems(fetch: Request -> PageOutcome, id: string, n: nat, k: nat)
    requires k < |Collected(fetch, id, n)|
    ensures exists p, j ::
              && 1 <= p <= n && 0 <= j < |ItemsOf(fetch(Request(id, p)))|
              && Collected(fetch, id, n)[k] == ToReview(ItemsOf(fetch(Request(id, p)))[j])
  {
    var prev := Collected(fetch, id, n - 1);
    if k < |prev| {
      CollectedFromItems(fetch, id, n - 1, k);
    } else {
      var j := k - |prev|;
      assert Collected(fetch, id, n)[k] == ToReview(ItemsOf(fetch(Request(id, n)))[j]);
    }
  }

  /** The requests made are for pages 1, 2, ... in order, never beyond
      `maxPages`; every page before the last one requested was not an end
      page; and fewer than `maxPages` pages are requested only when the last
      one requested was an end page. Without a product id nothing is
      requested and nothing is returned. */
  lemma RequestedPages(url: string, maxPages: int, fetch: Request -> PageOutcome)
    ensures ProductId(url).None? ==> Requested(url, maxPages, fetch) == [] && Fetched(url, maxPages, fetch) == []
    ensures ProductId(url).Some? ==>
      var id := ProductId(url).value;
      var rs := Requested(url, maxPages, fetch);
      && (forall i :: 0 <= i < |rs| ==> rs[i] == Request(id, i + 1))
      && (|rs| == 0 || |rs| <= maxPages)
      && (forall i :: 0 <= i < |rs| - 1 ==> !IsEnd(fetch(rs[i])))
      && (|rs| < maxPages ==> 0 < |rs| && IsEnd(fetch(rs[|rs| - 1])))
      && Fetched(url, maxPages, fetch) == Collected(fetch, id, |rs|)
  {
    if ProductId(url).Some? {
      var id := ProductId(url).value;
      var rs := Requested(url, maxPages, fetch);
      assert |rs| == LastPage(fetch, id, maxPages);
      forall i | 0 <= i < |rs| - 1 ensures !IsEnd(fetch(rs[i])) {
        assert rs[i] == Request(id, i + 1);
      }
    }
  }

  /** A URL without the pattern yields no reviews and no request. */
  lemma NoIdNoRequests(maxPages: int, fetch: Request -> PageOutcome)
    ensures Requested("daraz.pk/i5", maxPages, fetch) == []
    ensures Fetched("daraz.pk/i5", maxPages, fetch) == []
  {
    var url := "daraz.pk/i5";
    forall p: nat | p + 2 < |url| ensures !MatchAt(url, p) {
      assert url[p] != '-';
    }
    assert ProductId(url).None?;
  }
}
