/** Ranking of the tally: `sorted(items, key=count, reverse=True)[:5]`.
    Python's sort is stable also with `reverse=True`, so entries with equal
    counts keep their tally order. */
module Ranking {
  import opened Types
  import opened Issues

  const TopN: nat := 5

  /** Insert `x` before the first entry whose count is not larger. */
  function InsertDesc(x: IssueCount, s: seq<IssueCount>): seq<IssueCount>
  {
    if s == [] || s[0].count <= x.count then [x] + s
    else [s[0]] + InsertDesc(x, s[1..])
  }

  /** Stable sort by count, largest first (insertion sort); it only
      reorders the entries. */
  function SortDesc(s: seq<IssueCount>): (r: seq<IssueCount>)
    ensures multiset(r) == multiset(s)
    ensures |r| == |s|
  {
    if s == [] then []
    else
      var rest := SortDesc(s[1..]);
      InsertPermutes(s[0], rest);
      assert s == [s[0]] + s[1..];
      var r := InsertDesc(s[0], rest);
      assert |multiset(r)| == |r|;
      r
  }

  /** The issues reported: `[:5]` of the sorted entries, that is, the
      first `TopN` of them, or all when there are fewer. */
  function TopIssues(items: seq<IssueCount>): (r: seq<IssueCount>)
    ensures r <= SortDesc(items)
    ensures |r| == if |items| <= TopN then |items| else TopN
  {
    var sorted := SortDesc(items);
    sorted[..Min(TopN, |sorted|)]
  }

  /** Counts are non-increasing and, among equal counts, `key` increases. */
  ghost predicate RankedBy(s: seq<IssueCount>, key: IssueCount -> int)
  {
    forall i, j :: 0 <= i < j < |s| ==>
      s[i].count > s[j].count || (s[i].count == s[j].count && key(s[i]) < key(s[j]))
  }

  ghost predicate NonIncreasing(s: seq<IssueCount>)
  {
    forall i, j :: 0 <= i < j < |s| ==> s[i].count >= s[j].count
  }

  lemma {:induction false} InsertPermutes(x: IssueCount, s: seq<IssueCount>)
    ensures multiset(InsertDesc(x, s)) == multiset{x} + multiset(s)
    decreases |s|
  {
    if !(s == [] || s[0].count <= x.count) {
      InsertPermutes(x, s[1..]);
      assert s == [s[0]] + s[1..];
    }
  }

  lemma {:induction false} InsertNonIncreasing(x: IssueCount, s: seq<IssueCount>)
    requires NonIncreasing(s)
    ensures NonIncreasing(InsertDesc(x, s))
    decreases |s|
  {
    if !(s == [] || s[0].count <= x.count) {
      InsertNonIncreasing(x, s[1..]);
      InsertPermutes(x, s[1..]);
      var r := InsertDesc(x, s[1..]);
      forall e | e in r ensures e.count <= s[0].count {
        assert e in multiset(r);
      }
    }
  }

  /** The sorted entries have non-increasing counts, whatever the input. */
  lemma {:induction false} SortNonIncreasing(s: seq<IssueCount>)
    ensures NonIncreasing(SortDesc(s))
    decreases |s|
  {
    if s != [] {
      SortNonIncreasing(s[1..]);
      InsertNonIncreasing(s[0], SortDesc(s[1..]));
    }
  }

  lemma {:induction false} InsertRanked(x: IssueCount, s: seq<IssueCount>, key: IssueCount -> int)
    requires RankedBy(s, key)
    requires forall e :: e in s ==> key(x) < key(e)
    ensures RankedBy(InsertDesc(x, s), key)
    decreases |s|
  {
    if !(s == [] || s[0].count <= x.count) {
      InsertRanked(x, s[1..], key);
      InsertPermutes(x, s[1..]);
      var r := InsertDesc(x, s[1..]);
      forall e | e in r
        ensures s[0].count > e.count || (s[0].count == e.count && key(s[0]) < key(e))
      {
        assert e in multiset(r);
        if e != x {
          assert e in s[1..];
        }
      }
    }
  }

  /** Stability: when the input is ordered by `key`, the output is ordered
      by count, largest first, and by `key` among equal counts. */
  lemma {:induction false} SortRanked(s: seq<IssueCount>, key: IssueCount -> int)
    requires forall i, j :: 0 <= i < j < |s| ==> key(s[i]) < key(s[j])
    ensures RankedBy(SortDesc(s), key)
    decreases |s|
  {
    if s != [] {
      SortRanked(s[1..], key);
      forall e | e in SortDesc(s[1..]) ensures key(s[0]) < key(e) {
        assert e in multiset(SortDesc(s[1..]));
        var j :| 0 <= j < |s[1..]| && s[1..][j] == e;
        assert s[j + 1] == e;
      }
      InsertRanked(s[0], SortDesc(s[1..]), key);
    }
  }

  lemma {:induction false} InsertSum(x: IssueCount, s: seq<IssueCount>)
    ensures SumCounts(InsertDesc(x, s)) == x.count + SumCounts(s)
    decreases |s|
  {
    if !(s == [] || s[0].count <= x.count) {
      InsertSum(x, s[1..]);
    }
  }

  lemma {:induction false} SortSum(s: seq<IssueCount>)
    ensures SumCounts(SortDesc(s)) == SumCounts(s)
    decreases |s|
  {
    if s != [] {
      SortSum(s[1..]);
      InsertSum(s[0], SortDesc(s[1..]));
    }
  }

  /** A tally with no category twice, over categories drawn from `cats`, has
      at most `|cats|` entries. */
  lemma {:induction false} DistinctBound(items: seq<IssueCount>, cats: set<Category>)
    requires Distinct(items)
    requires forall i :: 0 <= i < |items| ==> items[i].category in cats
    ensures |items| <= |cats|
    decreases |items|
  {
    if items != [] {
      DistinctBound(items[1..], cats - {items[0].category});
    }
  }

  lemma AllCategories(c: Category)
    ensures c in {Quality, Delivery, Price, Description, Service}
  {
    match c
    case Quality =>
    case Delivery =>
    case Price =>
    case Description =>
    case Service =>
  }

  /** There are five categories, so the tally never has more than five
      entries and the cut to `TopN` never drops one. */
  lemma TallyFitsTopN(hits: seq<Option<Category>>)
    ensures |Tally(hits)| <= TopN
    ensures TopIssues(Tally(hits)) == SortDesc(Tally(hits))
  {
    var all := {Quality, Delivery, Price, Description, Service};
    assert |all| == 5;
    TallyKeys(hits);
    forall i | 0 <= i < |Tally(hits)| ensures Tally(hits)[i].category in all {
      AllCategories(Tally(hits)[i].category);
    }
    DistinctBound(Tally(hits), all);
  }

  /** The issues reported hold every category some negative review fell
      in, each with the number of reviews in it (at least 1); there are at
      most `TopN` of them, and their counts add up to the number of reviews
      that fell in some category. */
  lemma IssuesCounted(hits: seq<Option<Category>>)
    ensures var r := TopIssues(Tally(hits));
      && |r| <= TopN
      && (forall i :: 0 <= i < |r| ==> 1 <= r[i].count == multiset(hits)[Some(r[i].category)])
      && (forall c :: Some(c) in hits ==> exists i :: 0 <= i < |r| && r[i].category == c)
      && SumCounts(r) == |hits| - multiset(hits)[None]
  {
    var t := Tally(hits);
    var r := TopIssues(t);
    TallyFitsTopN(hits);
    assert r == SortDesc(t);
    TallyKeys(hits);
    TallyCounts(hits);
    TallySum(hits);
    SortSum(t);
    forall i | 0 <= i < |r| ensures 1 <= r[i].count == multiset(hits)[Some(r[i].category)] {
      assert r[i] in multiset(t);
    }
    forall c | Some(c) in hits ensures exists i :: 0 <= i < |r| && r[i].category == c {
      var k := Find(t, c);
      assert t[k] in multiset(r);
    }
  }

  /** The issues reported are ordered by count, largest first; equal counts
      are ordered by the position of the first negative review in each
      category, which is the order of first increment, not the declared
      order of the categories. */
  lemma IssuesOrdered(hits: seq<Option<Category>>)
    ensures RankedBy(TopIssues(Tally(hits)), (e: IssueCount) => FirstIndex(hits, Some(e.category)))
  {
    var t := Tally(hits);
    TallyFitsTopN(hits);
    TallyOrder(hits);
    SortRanked(t, (e: IssueCount) => FirstIndex(hits, Some(e.category)));
  }

  /** Ties are not broken by the declared order: a price complaint seen
      before a quality complaint is listed first when both counts are 1. */
  lemma TiesByFirstIncrement()
    ensures TopIssues(Tally([Some(Price), Some(Quality)])) == [IssueCount(Price, 1), IssueCount(Quality, 1)]
  {
    var hits := [Some(Price), Some(Quality)];
    assert hits[..1] == [Some(Price)];
    assert [Some(Price)][..0] == [];
    assert Tally(hits) == [IssueCount(Price, 1), IssueCount(Quality, 1)];
  }
}
