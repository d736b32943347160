/** Values shared by the review pipeline: the raw records of the remote
    review listing, the review records built from them, and the outcome of
    one page request. */
module Types {

  datatype Option<+T> = None | Some(value: T)

  /** One item of a review page, as the remote listing delivers it. A field
      that is missing (or JSON null) is `None`. */
  datatype Item = Item(
    buyerName: Option<string>,
    rating: Option<int>,
    reviewTime: Option<string>,
    reviewContent: Option<string>,
    likeCount: Option<int>)

  /** One customer review; absent fields stay absent (`None`). */
  datatype Review = Review(
    author: Option<string>,
    rating: Option<int>,
    date: Option<string>,
    content: Option<string>,
    likes: Option<int>)

  /** A request to the paginated listing: product id and page number. */
  datatype Request = Request(itemId: string, pageNo: int)

  /** What one page request yields: an exception anywhere in the request or
      the decoding (`Fail`), or the list of items on the page. */
  datatype PageOutcome = Fail | Ok(items: seq<Item>)

  /** Field-by-field copy of an item into a review. */
  function ToReview(item: Item): (r: Review)
    ensures r.author == item.buyerName && r.rating == item.rating && r.date == item.reviewTime
    ensures r.content == item.reviewContent && r.likes == item.likeCount
  {
    Review(item.buyerName, item.rating, item.reviewTime, item.reviewContent, item.likeCount)
  }

  function Min(a: int, b: int): int
  {
    if a <= b then a else b
  }
}
