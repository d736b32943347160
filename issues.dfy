/** Bucketing of negative reviews into issue categories, and the tally of
    the buckets in first-increment order (the items of the `defaultdict`). */
module Issues {
  import opened Types
  import opened Text

  datatype Category = Quality | Delivery | Price | Description | Service
  {
    function Name(): string
    {
      match this
      case Quality => "quality"
      case Delivery => "delivery"
      case Price => "price"
      case Description => "description"
      case Service => "service"
    }
  }

  /** The categories in their declared order. */
  const Table: seq<Category> := [Quality, Delivery, Price, Description, Service]

  function Keywords(c: Category): seq<string>
  {
    match c
    case Quality => ["quality", "poor", "cheap", "broken", "defective"]
    case Delivery => ["delivery", "late", "slow", "shipping"]
    case Price => ["price", "expensive", "overpriced"]
    case Description => ["description", "different", "wrong"]
    case Service => ["service", "customer", "support"]
  }

  /** Position of a category in the declared order. */
  function Rank(c: Category): (k: nat)
    ensures k < |Table| && Table[k] == c
  {
    match c
    case Quality => 0
    case Delivery => 1
    case Price => 2
    case Description => 3
    case Service => 4
  }

  /** `any(keyword in text for keyword in keywords)`. */
  function AnyKeyword(text: string, keywords: seq<string>): (r: bool)
    ensures r <==> exists k :: 0 <= k < |keywords| && Contains(text, keywords[k])
  {
    if keywords == [] then false
    else if Contains(text, keywords[0]) then true
    else
      var r := AnyKeyword(text, keywords[1..]);
      assert forall k :: 1 <= k < |keywords| ==> keywords[1..][k - 1] == keywords[k];
      r
  }

  /** Some keyword of category `c` is a substring of `text`. */
  predicate Mentions(text: string, c: Category)
  {
    AnyKeyword(text, Keywords(c))
  }

  /** The first category, from position `k` of the declared order on, that
      `text` mentions. */
  function FirstMentioned(text: string, k: nat): (r: Option<Category>)
    requires k <= |Table|
    ensures r.Some? ==> k <= Rank(r.value) && Mentions(text, r.value)
    ensures r.Some? ==> forall d :: k <= Rank(d) < Rank(r.value) ==> !Mentions(text, d)
    ensures r.None? ==> forall d :: k <= Rank(d) ==> !Mentions(text, d)
    decreases |Table| - k
  {
    if k == |Table| then None
    else if Mentions(text, Table[k]) then Some(Table[k])
    else FirstMentioned(text, k + 1)
  }

  /** The issue category of a negative review's content: the first category
      in declared order with a keyword in the lower-cased content. */
  function IssueOf(content: string): (r: Option<Category>)
    ensures r.Some? ==> Mentions(Lower(content), r.value)
    ensures r.Some? ==> forall d :: Rank(d) < Rank(r.value) ==> !Mentions(Lower(content), d)
    ensures r.None? <==> forall d :: !Mentions(Lower(content), d)
  {
    FirstMentioned(Lower(content), 0)
  }

  /** One `(issue, count)` entry. */
  datatype IssueCount = IssueCount(category: Category, count: nat)

  /** Index of the entry for `c`, or `|items|` when there is none. */
  function Find(items: seq<IssueCount>, c: Category): (k: nat)
    ensures k <= |items|
    ensures k < |items| ==> items[k].category == c
    ensures forall j :: 0 <= j < k ==> items[j].category != c
  {
    if items == [] then 0
    else if items[0].category == c then 0
    else 1 + Find(items[1..], c)
  }

  /** `issue_counts[c]` read from a `defaultdict(int)`: the entry's count,
      0 when there is none. */
  function CountOf(items: seq<IssueCount>, c: Category): nat
  {
    var k := Find(items, c);
    if k < |items| then items[k].count else 0
  }

  /** `issue_counts[c] += 1` on a `defaultdict(int)`: the count of `c` goes
      up by one and no other count changes; keys already present keep their
      place and a missing key is added at the end. */
  function Increment(items: seq<IssueCount>, c: Category): (r: seq<IssueCount>)
    ensures Find(items, c) < |items| ==> |r| == |items|
    ensures Find(items, c) == |items| ==> r == items + [IssueCount(c, 1)]
    ensures forall j :: 0 <= j < |items| ==> r[j].category == items[j].category
    ensures CountOf(r, c) == CountOf(items, c) + 1
    ensures forall d :: d != c ==> CountOf(r, d) == CountOf(items, d)
  {
    var k := Find(items, c);
    if k < |items| then
      var r := items[k := IssueCount(c, items[k].count + 1)];
      FindUpdate(items, k, IssueCount(c, items[k].count + 1));
      r
    else
      FindAppend(items, IssueCount(c, 1));
      items + [IssueCount(c, 1)]
  }

  /** The effect of one negative review on the tally. */
  function Bump(items: seq<IssueCount>, hit: Option<Category>): seq<IssueCount>
  {
    match hit
    case None => items
    case Some(c) => Increment(items, c)
  }

  /** The tally after the given sequence of per-review results. */
  function Tally(hits: seq<Option<Category>>): seq<IssueCount>
  {
    if hits == [] then []
    else Bump(Tally(hits[..|hits| - 1]), hits[|hits| - 1])
  }

  /** The category each negative review falls in, in review order. */
  function Hits(negatives: seq<Review>): seq<Option<Category>>
    requires forall i :: 0 <= i < |negatives| ==> negatives[i].content.Some?
  {
    seq(|negatives|, i requires 0 <= i < |negatives| => IssueOf(negatives[i].content.value))
  }

  ghost predicate Distinct(items: seq<IssueCount>)
  {
    forall i, j :: 0 <= i < j < |items| ==> items[i].category != items[j].category
  }

  function SumCounts(items: seq<IssueCount>): nat
  {
    if items == [] then 0 else items[0].count + SumCounts(items[1..])
  }

  /** Position of the first `x` in `s`, or `|s|` when there is none. */
  function FirstIndex<T(==)>(s: seq<T>, x: T): (k: nat)
    ensures k <= |s|
    ensures k < |s| ==> s[k] == x
    ensures forall j :: 0 <= j < k ==> s[j] != x
  {
    if s == [] then 0
    else if s[0] == x then 0
    else 1 + FirstIndex(s[1..], x)
  }

  lemma FirstMentionedAt(text: string, k: nat)
    requires k < |Table| && Mentions(text, Table[k])
    requires forall j :: 0 <= j < k ==> !Mentions(text, Table[j])
    ensures FirstMentioned(text, 0) == Some(Table[k])
  {
    assert Rank(Table[k]) == k;
  }

  lemma NoneMentioned(text: string)
    requires forall j :: 0 <= j < |Table| ==> !Mentions(text, Table[j])
    ensures FirstMentioned(text, 0) == None
  {
    forall d ensures !Mentions(text, d) {
      assert Table[Rank(d)] == d;
    }
  }

  lemma TallyStep(hits: seq<Option<Category>>, i: nat)
    requires i < |hits|
    ensures Tally(hits[..i + 1]) == Bump(Tally(hits[..i]), hits[i])
  {
    assert hits[..i + 1][..i] == hits[..i];
  }

  /** The inner loop of the issue tally: scan the categories in declared
      order and increment the first one that `content` mentions, then stop. */
  method IncrementFirstMentioned(counts: seq<IssueCount>, content: string) returns (r: seq<IssueCount>)
    ensures r == Bump(counts, FirstMentioned(content, 0))
  {
    r := counts;
    for k := 0 to |Table|
      invariant forall j :: 0 <= j < k ==> !Mentions(content, Table[j])
      invariant r == counts
    {
      if AnyKeyword(content, Keywords(Table[k])) {
        FirstMentionedAt(content, k);
        r := Increment(r, Table[k]);
        return;
      }
    }
    NoneMentioned(content);
  }

  /** The issue loop of `analyze_reviews`: each negative review's content is
      lower-cased and its first mentioned category incremented. */
  method TallyIssues(negatives: seq<Review>) returns (counts: seq<IssueCount>)
    requires forall i :: 0 <= i < |negatives| ==> negatives[i].content.Some?
    ensures counts == Tally(Hits(negatives))
  {
    ghost var hits := Hits(negatives);
    counts := [];
    for i := 0 to |negatives|
      invariant counts == Tally(hits[..i])
    {
      var content := Lower(negatives[i].content.value);
      counts := IncrementFirstMentioned(counts, content);
      assert hits[i] == FirstMentioned(content, 0);
      TallyStep(hits, i);
    }
    assert hits[..|negatives|] == hits;
  }

  lemma {:induction false} FirstIndexExtend<T>(s: seq<T>, y: T, x: T)
    requires x in s
    ensures FirstIndex(s + [y], x) == FirstIndex(s, x)
  {
    var k := FirstIndex(s, x);
    var k' := FirstIndex(s + [y], x);
    assert (s + [y])[k] == x;
    assert k' <= k;
    assert s[k'] == x;
  }

  lemma {:induction false} SumUpdate(items: seq<IssueCount>, k: nat, x: IssueCount)
    requires k < |items|
    ensures SumCounts(items[k := x]) + items[k].count == SumCounts(items) + x.count
    decreases |items|
  {
    if k > 0 {
      SumUpdate(items[1..], k - 1, x);
      assert items[k := x][1..] == items[1..][k - 1 := x];
    }
  }

  lemma {:induction false} SumAppend(items: seq<IssueCount>, x: IssueCount)
    ensures SumCounts(items + [x]) == SumCounts(items) + x.count
    decreases |items|
  {
    if items != [] {
      SumAppend(items[1..], x);
      assert (items + [x])[1..] == items[1..] + [x];
    }
  }

  /** The tally has no category twice, and holds exactly the categories
      that some negative review fell in. */
  lemma {:induction false} TallyKeys(hits: seq<Option<Category>>)
    ensures Distinct(Tally(hits))
    ensures forall c :: Find(Tally(hits), c) < |Tally(hits)| <==> Some(c) in hits
    decreases |hits|
  {
    if hits != [] {
      var n := |hits| - 1;
      var front, y := hits[..n], hits[n];
      TallyKeys(front);
      var t0, t := Tally(front), Tally(hits);
      assert hits == front + [y];
      if y.Some? {
        var c := y.value;
        var k := Find(t0, c);
        if k < |t0| {
          assert t == t0[k := IssueCount(c, t0[k].count + 1)];
          forall d ensures Find(t, d) == Find(t0, d) {
            FindSameKeys(t0, t, d);
          }
        } else {
          assert t == t0 + [IssueCount(c, 1)];
          forall d | d != c ensures Find(t, d) < |t| <==> Find(t0, d) < |t0| {
            var k' := Find(t0, d);
            if k' < |t0| {
              assert t[k'].category == d;
            }
          }
          assert t[|t0|].category == c;
        }
      }
    }
  }

  lemma {:induction false} FindSameKeys(a: seq<IssueCount>, b: seq<IssueCount>, d: Category)
    requires |a| == |b|
    requires forall i :: 0 <= i < |a| ==> a[i].category == b[i].category
    ensures Find(a, d) == Find(b, d)
    decreases |a|
  {
    if a != [] && a[0].category != d {
      FindSameKeys(a[1..], b[1..], d);
    }
  }

  lemma FindUpdate(items: seq<IssueCount>, k: nat, x: IssueCount)
    requires k < |items| && items[k].category == x.category
    ensures forall d :: Find(items[k := x], d) == Find(items, d)
  {
    forall d ensures Find(items[k := x], d) == Find(items, d) {
      FindSameKeys(items, items[k := x], d);
    }
  }

  lemma {:induction false} FindAppend(items: seq<IssueCount>, x: IssueCount)
    ensures forall d :: Find(items + [x], d) ==
                        if Find(items, d) == |items| && d != x.category then |items| + 1 else Find(items, d)
  {
    forall d ensures Find(items + [x], d) ==
                     if Find(items, d) == |items| && d != x.category then |items| + 1 else Find(items, d)
    {
      var k := Find(items, d);
      var k' := Find(items + [x], d);
      if k < |items| {
        assert (items + [x])[k] == items[k];
        assert k' <= k;
        assert items[k'] == (items + [x])[k'];
      } else {
        forall j | 0 <= j < |items| ensures (items + [x])[j].category != d {
          assert (items + [x])[j] == items[j];
        }
        assert (items + [x])[|items|] == x;
      }
    }
  }

  /** Each entry's count is the number of negative reviews in its category,
      hence at least 1. */
  lemma {:induction false} TallyCounts(hits: seq<Option<Category>>)
    ensures forall i :: 0 <= i < |Tally(hits)| ==>
              1 <= Tally(hits)[i].count == multiset(hits)[Some(Tally(hits)[i].category)]
    decreases |hits|
  {
    if hits != [] {
      var n := |hits| - 1;
      var front, y := hits[..n], hits[n];
      TallyCounts(front);
      TallyKeys(front);
      var t0, t := Tally(front), Tally(hits);
      assert hits == front + [y];
      assert multiset(hits) == multiset(front) + multiset{y};
      if y.Some? {
        var c := y.value;
        var k := Find(t0, c);
        if k < |t0| {
          assert t == t0[k := IssueCount(c, t0[k].count + 1)];
        } else {
          assert t == t0 + [IssueCount(c, 1)];
          assert Some(c) !in front;
        }
      }
    }
  }

  /** Entries appear in the order in which their categories were first
      incremented: by the position of the first review in each category. */
  lemma {:induction false} TallyOrder(hits: seq<Option<Category>>)
    ensures forall i, j :: 0 <= i < j < |Tally(hits)| ==>
              FirstIndex(hits, Some(Tally(hits)[i].category)) < FirstIndex(hits, Some(Tally(hits)[j].category))
    decreases |hits|
  {
    if hits != [] {
      var n := |hits| - 1;
      var front, y := hits[..n], hits[n];
      TallyOrder(front);
      TallyKeys(front);
      var t0, t := Tally(front), Tally(hits);
      assert hits == front + [y];
      forall i | 0 <= i < |t0|
        ensures FirstIndex(hits, Some(t0[i].category)) == FirstIndex(front, Some(t0[i].category)) < n
      {
        assert Find(t0, t0[i].category) <= i;
        FirstIndexExtend(front, y, Some(t0[i].category));
      }
      if y.Some? {
        var c := y.value;
        var k := Find(t0, c);
        if k < |t0| {
          assert t == t0[k := IssueCount(c, t0[k].count + 1)];
        } else {
          assert t == t0 + [IssueCount(c, 1)];
          assert FirstIndex(hits, Some(c)) == n;
        }
      }
    }
  }

  /** The counts add up to the number of negative reviews that fell in some
      category. */
  lemma {:induction false} TallySum(hits: seq<Option<Category>>)
    ensures SumCounts(Tally(hits)) == |hits| - multiset(hits)[None]
    decreases |hits|
  {
    if hits != [] {
      var n := |hits| - 1;
      var front, y := hits[..n], hits[n];
      TallySum(front);
      var t0 := Tally(front);
      assert hits == front + [y];
      assert multiset(hits) == multiset(front) + multiset{y};
      if y.Some? {
        var c := y.value;
        var k := Find(t0, c);
        if k < |t0| {
          SumUpdate(t0, k, IssueCount(c, t0[k].count + 1));
        } else {
          SumAppend(t0, IssueCount(c, 1));
        }
      }
    }
  }

  /** A negative review whose content contains "late delivery" and no
      quality keyword goes to `Delivery` (with a quality keyword it goes to
      `Quality`, which comes first). */
  lemma LateDeliveryIsDelivery(content: string)
    requires Contains(Lower(content), "late delivery")
    requires !Mentions(Lower(content), Quality)
    ensures IssueOf(content) == Some(Delivery)
  {
    var s := Lower(content);
    var i :| OccursAt(s, "late delivery", i);
    assert s[i + 5..i + 13] == s[i..i + 13][5..13] == "delivery";
    assert OccursAt(s, "delivery", i + 5);
    assert Contains(s, Keywords(Delivery)[0]);
    FirstMentionedAt(s, 1);
  }

  /** Content that mentions a quality keyword and a price keyword, in any
      letter case, goes to `Quality`, the earlier category. */
  lemma QualityBeforePrice(content: string)
    requires Mentions(Lower(content), Quality)
    requires Mentions(Lower(content), Price)
    ensures IssueOf(content) == Some(Quality)
  {
    FirstMentionedAt(Lower(content), 0);
  }
}
