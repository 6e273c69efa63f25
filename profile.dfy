/**
 * The partner's public profile: the summaries computed from the partner's
 * food items (cuisines, average likes, price range), the follower label and
 * the follow button.
 */
module Profile {
  import opened Wrappers
  import Text
  import PartnerDashboard

  type Item = PartnerDashboard.Item

  // ---------------------------------------------------------------------
  // getUniqueCuisines

  /** `set.add(x)` on an insertion-ordered set held as a list without repeats. */
  function SetAdd(s: seq<string>, x: string): (r: seq<string>)
    ensures forall y :: y in r <==> y in s || y == x
    ensures x in s ==> r == s
    ensures x !in s ==> r == s + [x]
  {
    if x in s then s else s + [x]
  }

  /** `tags.forEach(tag => set.add(tag))`. */
  function AddAll(s: seq<string>, xs: seq<string>): (r: seq<string>)
    ensures forall y :: y in r <==> y in s || y in xs
  {
    if xs == [] then s else SetAdd(AddAll(s, xs[..|xs| - 1]), xs[|xs| - 1])
  }

  /** One item's contribution: its category when set, then its tags when it has a tags list. */
  function AddItem(s: seq<string>, item: Item): (r: seq<string>)
    ensures forall x :: x in r <==> x in s || Contributes(item, x)
  {
    var withCategory := if item.category != "" then SetAdd(s, item.category) else s;
    if item.tags.Some? then AddAll(withCategory, item.tags.value) else withCategory
  }

  /** The set's contents after visiting `items` in order. */
  function Collected(items: seq<Item>): seq<string> {
    if items == [] then [] else AddItem(Collected(items[..|items| - 1]), items[|items| - 1])
  }

  /** A word some item contributes: a set category or one of its tags. */
  predicate Contributes(item: Item, x: string) {
    (item.category != "" && item.category == x) || (item.tags.Some? && x in item.tags.value)
  }

  predicate NoRepeats(s: seq<string>) {
    forall i, j :: 0 <= i < j < |s| ==> s[i] != s[j]
  }

  predicate IsPrefix(a: seq<string>, b: seq<string>) {
    |a| <= |b| && b[..|a|] == a
  }

  lemma PrefixTransitive(a: seq<string>, b: seq<string>, c: seq<string>)
    requires IsPrefix(a, b) && IsPrefix(b, c)
    ensures IsPrefix(a, c)
  {
    assert c[..|a|] == c[..|b|][..|a|];
  }

  lemma SetAddKeeps(s: seq<string>, x: string)
    requires NoRepeats(s)
    ensures NoRepeats(SetAdd(s, x)) && IsPrefix(s, SetAdd(s, x))
  {
  }

  lemma {:induction false} AddAllKeeps(s: seq<string>, xs: seq<string>)
    requires NoRepeats(s)
    ensures NoRepeats(AddAll(s, xs)) && IsPrefix(s, AddAll(s, xs))
  {
    if xs != [] {
      var mid := AddAll(s, xs[..|xs| - 1]);
      AddAllKeeps(s, xs[..|xs| - 1]);
      SetAddKeeps(mid, xs[|xs| - 1]);
      PrefixTransitive(s, mid, AddAll(s, xs));
    }
  }

  /** An item only appends new words to the set. */
  lemma AddItemKeeps(s: seq<string>, item: Item)
    requires NoRepeats(s)
    ensures NoRepeats(AddItem(s, item)) && IsPrefix(s, AddItem(s, item))
  {
    var withCategory := if item.category != "" then SetAdd(s, item.category) else s;
    SetAddKeeps(s, item.category);
    if item.tags.Some? {
      AddAllKeeps(withCategory, item.tags.value);
      PrefixTransitive(s, withCategory, AddItem(s, item));
    }
  }

  /** Every word is collected once. */
  lemma {:induction false} CollectedNoRepeats(items: seq<Item>)
    ensures NoRepeats(Collected(items))
  {
    if items != [] {
      CollectedNoRepeats(items[..|items| - 1]);
      AddItemKeeps(Collected(items[..|items| - 1]), items[|items| - 1]);
    }
  }

  /** The collected words are exactly the categories and tags of the items. */
  lemma {:induction false} CollectedMember(items: seq<Item>, x: string)
    ensures x in Collected(items) <==> exists i :: 0 <= i < |items| && Contributes(items[i], x)
  {
    if items != [] {
      var n := |items| - 1;
      var before := items[..n];
      CollectedMember(before, x);
      assert x in Collected(items) <==> x in Collected(before) || Contributes(items[n], x);
      if x in Collected(before) {
        var i :| 0 <= i < n && Contributes(before[i], x);
        assert before[i] == items[i];
      }
      if exists i :: 0 <= i < |items| && Contributes(items[i], x) {
        var i :| 0 <= i < |items| && Contributes(items[i], x);
        if i < n {
          assert before[i] == items[i];
        }
      }
    }
  }

  /** Visiting more items only appends to the set: words stay in first-seen order. */
  lemma {:induction false} CollectedPrefix(items: seq<Item>, k: nat)
    requires k <= |items|
    ensures IsPrefix(Collected(items[..k]), Collected(items))
  {
    if k < |items| {
      var n := |items| - 1;
      assert items[..k] == items[..n][..k];
      CollectedPrefix(items[..n], k);
      CollectedNoRepeats(items[..n]);
      AddItemKeeps(Collected(items[..n]), items[n]);
      PrefixTransitive(Collected(items[..k]), Collected(items[..n]), Collected(items));
    } else {
      assert items[..k] == items;
    }
  }

  /** `getUniqueCuisines`: the first three collected words, none for no items. */
  method UniqueCuisines(videos: seq<Item>) returns (r: seq<string>)
    ensures |r| <= 3 && NoRepeats(r)
    ensures |r| <= |Collected(videos)| && r == Collected(videos)[..|r|]
    ensures |r| < 3 ==> r == Collected(videos)
    ensures forall x :: x in r ==> exists i :: 0 <= i < |videos| && Contributes(videos[i], x)
  {
    if |videos| == 0 {
      return [];
    }
    var cuisines: seq<string> := [];
    for i := 0 to |videos|
      invariant cuisines == Collected(videos[..i])
    {
      var item := videos[i];
      assert videos[..i + 1][..i] == videos[..i];
      if item.category != "" {
        cuisines := SetAdd(cuisines, item.category);
      }
      if item.tags.Some? {
        var tags := item.tags.value;
        var start := cuisines;
        for j := 0 to |tags|
          invariant cuisines == AddAll(start, tags[..j])
        {
          assert tags[..j + 1][..j] == tags[..j];
          cuisines := SetAdd(cuisines, tags[j]);
        }
        assert tags[..|tags|] == tags;
      }
    }
    assert videos[..|videos|] == videos;
    CollectedNoRepeats(videos);
    r := if |cuisines| <= 3 then cuisines else cuisines[..3];
    forall x | x in r ensures exists i :: 0 <= i < |videos| && Contributes(videos[i], x) {
      assert x in cuisines;
      CollectedMember(videos, x);
    }
  }

  // ---------------------------------------------------------------------
  // getAverageLikes

  function TotalLikes(items: seq<Item>): int {
    PartnerDashboard.SumLikes(items)
  }

  /** `Math.round(total / n)` for n > 0: the nearest integer, halves rounded up. */
  function RoundDiv(total: int, n: int): (r: int)
    requires n > 0
    ensures 2 * n * r - n <= 2 * total < 2 * n * r + n
  {
    var r := (2 * total + n) / (2 * n);
    assert 2 * n * r <= 2 * total + n < 2 * n * r + 2 * n by {
      DivBounds(2 * total + n, 2 * n);
    }
    r
  }

  lemma DivBounds(a: int, b: int)
    requires b > 0
    ensures b * (a / b) <= a < b * (a / b) + b
  {
  }

  /** `getAverageLikes`: 0 for no items, else the rounded mean like count (missing counts as 0). */
  function AverageLikes(videos: seq<Item>): (r: int)
    ensures |videos| == 0 ==> r == 0
    ensures |videos| > 0 ==>
      2 * |videos| * r - |videos| <= 2 * TotalLikes(videos) < 2 * |videos| * r + |videos|
  {
    if |videos| == 0 then 0 else RoundDiv(TotalLikes(videos), |videos|)
  }

  // ---------------------------------------------------------------------
  // getPriceRange

  /** `videos.map(item => item.price || 0).filter(p => p > 0)`. */
  function PositivePrices(items: seq<Item>): (r: seq<int>)
    ensures forall p :: p in r <==> exists i :: 0 <= i < |items| && items[i].price == Some(p) && p > 0
  {
    if items == [] then []
    else
      var rest := PositivePrices(items[1..]);
      assert forall i :: 1 <= i < |items| ==> items[i] == items[1..][i - 1];
      var p := PartnerDashboard.OrZero(items[0].price);
      if p > 0 then [p] + rest else rest
  }

  function Min(s: seq<int>): (r: int)
    requires s != []
    ensures r in s && forall x :: x in s ==> r <= x
  {
    if |s| == 1 then s[0]
    else
      var m := Min(s[1..]);
      assert forall x :: x in s ==> x == s[0] || x in s[1..];
      if s[0] <= m then s[0] else m
  }

  function Max(s: seq<int>): (r: int)
    requires s != []
    ensures r in s && forall x :: x in s ==> x <= r
  {
    if |s| == 1 then s[0]
    else
      var m := Max(s[1..]);
      assert forall x :: x in s ==> x == s[0] || x in s[1..];
      if s[0] >= m then s[0] else m
  }

  datatype PriceRange = NoPrice | Single(price: int) | Span(low: int, high: int)

  /** The range of the positive prices among the items. */
  function PriceRangeOf(videos: seq<Item>): (r: PriceRange)
    ensures r == NoPrice <==> forall i :: 0 <= i < |videos| ==> videos[i].price.None? || videos[i].price.value <= 0
    ensures r.Single? ==> r.price > 0 && forall p :: p in PositivePrices(videos) ==> p == r.price
    ensures r.Single? ==> r.price in PositivePrices(videos)
    ensures r.Span? ==> 0 < r.low < r.high && r.low in PositivePrices(videos) && r.high in PositivePrices(videos)
    ensures r.Span? ==> forall p :: p in PositivePrices(videos) ==> r.low <= p <= r.high
  {
    var prices := PositivePrices(videos);
    assert forall i :: 0 <= i < |videos| && videos[i].price.Some? && videos[i].price.value > 0 ==>
      videos[i].price.value in prices;
    if prices == [] then
      NoPrice
    else
      var lo := Min(prices);
      var hi := Max(prices);
      if lo == hi then Single(lo) else Span(lo, hi)
  }

  const Rupee := "\U{20B9}"

  /** `getPriceRange`'s text. */
  function PriceRangeLabel(range: PriceRange): (r: string)
    ensures r == "N/A" <==> range == NoPrice
    ensures range.Single? ==> r == Rupee + Text.IntToString(range.price)
    ensures range.Span? ==> r == PriceRangeLabel(Single(range.low)) + " - " + PriceRangeLabel(Single(range.high))
    decreases if range.Span? then 1 else 0
  {
    assert "N/A"[0] != Rupee[0];
    match range
    case NoPrice => "N/A"
    case Single(p) => Rupee + Text.IntToString(p)
    case Span(lo, hi) => Rupee + Text.IntToString(lo) + " - " + Rupee + Text.IntToString(hi)
  }

  // ---------------------------------------------------------------------
  // Followers

  /** `followerLabel`: singular exactly for one follower. */
  function FollowerLabel(total: int): (r: string)
    ensures r == "follower" <==> total == 1
    ensures r == "follower" || r == "followers"
  {
    if total == 1 then "follower" else "followers"
  }

  /** The follow part of the page state. */
  datatype FollowState = FollowState(isFollowing: bool, followersCount: int, loading: bool, error: Option<string>)

  /**
   * The outcome of the POST: the reply's `isFollowing` and `followersCount`
   * (`None` when missing or not a number), or a rejection with its message.
   */
  datatype FollowResponse = Replied(isFollowing: Option<bool>, followersCount: Option<int>) | Rejected(message: Option<string>)

  const FollowFailed := "Unable to update follow status"

  /** `handleFollowToggle` with the page's partner id: whether it posts, and the state after the response. */
  function FollowToggle(id: string, st: FollowState, response: FollowResponse): (r: (bool, FollowState))
    ensures !r.0 <==> id == "" || st.loading
    ensures !r.0 ==> r.1 == st
    ensures r.0 ==> !r.1.loading
    ensures r.0 && response.Replied? ==>
      && r.1.isFollowing == (response.isFollowing == Some(true))
      && r.1.followersCount == (if response.followersCount.Some? then response.followersCount.value else st.followersCount)
      && r.1.error == None
    ensures r.0 && response.Rejected? ==>
      && r.1.isFollowing == st.isFollowing && r.1.followersCount == st.followersCount
      && r.1.error == Some(if response.message.Some? && response.message.value != "" then response.message.value else FollowFailed)
  {
    if id == "" || st.loading then (false, st)
    else
      match response
      case Replied(following, count) =>
        (true, FollowState(following.GetOr(false), if count.Some? then count.value else st.followersCount, false, None))
      case Rejected(message) =>
        (true, st.(loading := false, error := Some(if message.Some? && message.value != "" then message.value else FollowFailed)))
  }
}
