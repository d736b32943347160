/** Extraction of the numeric product id from a product URL: the first
    match of the pattern `-i(\d+)`, whose group is the digit run after it. */
module ProductIds {
  import opened Types
  import opened Text

  /** The pattern `-i\d` starts at position `p`. */
  predicate MatchAt(url: string, p: nat)
  {
    p + 2 < |url| && url[p] == '-' && url[p + 1] == 'i' && IsDigit(url[p + 2])
  }

  /** End of the longest run of digits starting at `i` (greedy `\d+`). */
  function DigitsEnd(s: string, i: nat): (e: nat)
    requires i <= |s|
    ensures i <= e <= |s|
    ensures forall k :: i <= k < e ==> IsDigit(s[k])
    ensures e == |s| || !IsDigit(s[e])
    decreases |s| - i
  {
    if i < |s| && IsDigit(s[i]) then DigitsEnd(s, i + 1) else i
  }

  /** Leftmost position at or after `p` where the pattern matches. */
  function FirstMatch(url: string, p: nat): (r: Option<nat>)
    requires p <= |url|
    ensures r.None? ==> forall q :: p <= q ==> !MatchAt(url, q)
    ensures r.Some? ==> p <= r.value && MatchAt(url, r.value)
    ensures r.Some? ==> forall q :: p <= q < r.value ==> !MatchAt(url, q)
    decreases |url| - p
  {
    if p == |url| then None
    else if MatchAt(url, p) then Some(p)
    else FirstMatch(url, p + 1)
  }

  /** `re.search(r'-i(\d+)', url).group(1)`, or `None` without a match. */
  function ProductId(url: string): (id: Option<string>)
    ensures id.None? <==> forall p: nat :: !MatchAt(url, p)
    ensures id.Some? ==>
      exists p: nat :: MatchAt(url, p) && (forall q: nat :: q < p ==> !MatchAt(url, q))
        && IsDigitRunAt(url, p + 2, id.value)
  {
    match FirstMatch(url, 0)
    case None => None
    case Some(p) => Some(url[p + 2..DigitsEnd(url, p + 2)])
  }

  /** `id` is a non-empty run of digits at `i` of `s` that cannot be
      extended to the right. */
  ghost predicate IsDigitRunAt(s: string, i: nat, id: string)
  {
    && 0 < |id|
    && i + |id| <= |s|
    && s[i..i + |id|] == id
    && (forall k :: 0 <= k < |id| ==> IsDigit(id[k]))
    && (i + |id| == |s| || !IsDigit(s[i + |id|]))
  }

  /** A URL whose only `-i` is followed by a letter has no product id. */
  lemma NoDigitAfterMarker()
    ensures ProductId("p-iphone").None?
  {
    var url := "p-iphone";
    forall p: nat | p + 2 < |url| && url[p] == '-' ensures !MatchAt(url, p) {
      assert p == 1;
    }
  }

  /** The id is the whole digit run after the first `-i`. */
  lemma FirstMarkerWins()
    ensures ProductId("ab-i12x-i3") == Some("12")
  {
    var url := "ab-i12x-i3";
    assert MatchAt(url, 2);
    assert !MatchAt(url, 0) && !MatchAt(url, 1);
    assert FirstMatch(url, 0) == Some(2);
    assert DigitsEnd(url, 4) == 6;
    assert url[4..6] == "12";
  }
}
