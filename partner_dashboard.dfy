/**
 * The partner dashboard: the stat cards, the out-of-stock list, deleting an
 * item and the restock dialog, whose request goes to the food controller's
 * update.
 */
module PartnerDashboard {
  import opened Wrappers
  import Text
  import Seqs
  import Models
  import FoodController

  /** A food item as the dashboard receives it; `None` is a missing field. */
  datatype Item = Item(
    id: string,
    name: string,
    description: string,
    category: string,
    tags: Option<seq<string>>,
    price: Option<int>,
    availableQuantity: Option<int>,
    likeCount: Option<int>,
    saveCount: Option<int>)

  datatype Stats = Stats(totalItems: int, totalLikes: int, totalSaves: int, totalOrders: int, totalEarnings: int)

  /** `n || 0`. */
  function OrZero(n: Option<int>): int {
    if n.Some? then n.value else 0
  }

  /** `items.reduce((sum, item) => sum + (item.likeCount || 0), 0)`. */
  function SumLikes(items: seq<Item>): int {
    if items == [] then 0 else OrZero(items[0].likeCount) + SumLikes(items[1..])
  }

  /** `items.reduce((sum, item) => sum + (item.saveCount || 0), 0)`. */
  function SumSaves(items: seq<Item>): int {
    if items == [] then 0 else OrZero(items[0].saveCount) + SumSaves(items[1..])
  }

  /** `orders.reduce((sum, order) => sum + order.totalAmount, 0)`. */
  function SumAmounts(amounts: seq<int>): int {
    if amounts == [] then 0 else amounts[0] + SumAmounts(amounts[1..])
  }

  /** A `reduce` step: one more item adds its own likes and saves. */
  lemma {:induction false} SumsSnoc(items: seq<Item>, x: Item)
    ensures SumLikes(items + [x]) == SumLikes(items) + OrZero(x.likeCount)
    ensures SumSaves(items + [x]) == SumSaves(items) + OrZero(x.saveCount)
  {
    if items != [] {
      assert (items + [x])[1..] == items[1..] + [x];
      SumsSnoc(items[1..], x);
    }
  }

  /** A `reduce` step: one more order adds its amount. */
  lemma {:induction false} SumAmountsSnoc(amounts: seq<int>, a: int)
    ensures SumAmounts(amounts + [a]) == SumAmounts(amounts) + a
  {
    if amounts != [] {
      assert (amounts + [a])[1..] == amounts[1..] + [a];
      SumAmountsSnoc(amounts[1..], a);
    }
  }

  /**
   * The stat cards of `fetchDashboardData`, from the partner's items and the
   * `totalAmount` of each fetched order; `None` when the orders fetch failed,
   * which leaves both order stats at 0. Each `reduce` is a left-to-right loop.
   */
  method LoadStats(items: seq<Item>, orders: Option<seq<int>>) returns (s: Stats)
    ensures s.totalItems == |items| && s.totalLikes == SumLikes(items) && s.totalSaves == SumSaves(items)
    ensures orders.None? ==> s.totalOrders == 0 && s.totalEarnings == 0
    ensures orders.Some? ==> s.totalOrders == |orders.value| && s.totalEarnings == SumAmounts(orders.value)
  {
    var totalLikes := 0;
    var totalSaves := 0;
    for i := 0 to |items|
      invariant totalLikes == SumLikes(items[..i])
      invariant totalSaves == SumSaves(items[..i])
    {
      SumsSnoc(items[..i], items[i]);
      assert items[..i + 1] == items[..i] + [items[i]];
      totalLikes := totalLikes + OrZero(items[i].likeCount);
      totalSaves := totalSaves + OrZero(items[i].saveCount);
    }
    assert items[..|items|] == items;
    var totalOrders := 0;
    var totalEarnings := 0;
    if orders.Some? {
      var amounts := orders.value;
      totalOrders := |amounts|;
      for i := 0 to |amounts|
        invariant totalEarnings == SumAmounts(amounts[..i])
      {
        SumAmountsSnoc(amounts[..i], amounts[i]);
        assert amounts[..i + 1] == amounts[..i] + [amounts[i]];
        totalEarnings := totalEarnings + amounts[i];
      }
      assert amounts[..|amounts|] == amounts;
    }
    s := Stats(|items|, totalLikes, totalSaves, totalOrders, totalEarnings);
  }

  /** `item.availableQuantity <= 0`: a missing stock compares false and is not listed. */
  predicate IsOutOfStock(item: Item) {
    item.availableQuantity.Some? && item.availableQuantity.value <= 0
  }

  /** The out-of-stock section: exactly the items with stock 0 or less, in list order. */
  function OutOfStock(items: seq<Item>): (r: seq<Item>)
    ensures forall i :: 0 <= i < |r| ==> r[i] in items && r[i].availableQuantity.Some? && r[i].availableQuantity.value <= 0
    ensures forall i :: 0 <= i < |items| && items[i].availableQuantity.Some? && items[i].availableQuantity.value <= 0 ==> items[i] in r
    ensures Seqs.IsSubsequence(r, items)
  {
    Seqs.Filter(items, IsOutOfStock)
  }

  predicate DistinctIds(items: seq<Item>) {
    forall i, j :: 0 <= i < j < |items| ==> items[i].id != items[j].id
  }

  function WithoutItem(items: seq<Item>, id: string): seq<Item> {
    Seqs.Filter(items, (item: Item) => item.id != id)
  }

  /**
   * `handleDeleteItem` after the confirmation: on a successful DELETE the
   * items with the id go and the item total drops by one; on failure nothing changes.
   */
  function DeleteItem(items: seq<Item>, stats: Stats, id: string, succeeded: bool): (r: (seq<Item>, Stats))
    ensures !succeeded ==> r == (items, stats)
    ensures succeeded ==> r.1 == stats.(totalItems := stats.totalItems - 1)
    ensures succeeded ==> forall i :: 0 <= i < |r.0| ==> r.0[i] in items && r.0[i].id != id
    ensures succeeded ==> forall i :: 0 <= i < |items| && items[i].id != id ==> items[i] in r.0
    ensures succeeded ==> Seqs.IsSubsequence(r.0, items)
  {
    if succeeded then (WithoutItem(items, id), stats.(totalItems := stats.totalItems - 1)) else (items, stats)
  }

  /** Likes of the entries with the id. */
  function LikesOf(items: seq<Item>, id: string): int {
    if items == [] then 0 else (if items[0].id == id then OrZero(items[0].likeCount) else 0) + LikesOf(items[1..], id)
  }

  /** Removing the items with the id takes exactly their likes out of the sum. */
  lemma {:induction false} SumLikesWithout(items: seq<Item>, id: string)
    ensures SumLikes(WithoutItem(items, id)) == SumLikes(items) - LikesOf(items, id)
  {
    if items != [] {
      SumLikesWithout(items[1..], id);
    }
  }

  lemma {:induction false} WithoutPresentItem(items: seq<Item>, k: nat)
    requires DistinctIds(items) && k < |items|
    ensures |WithoutItem(items, items[k].id)| == |items| - 1
    ensures LikesOf(items, items[k].id) == OrZero(items[k].likeCount)
  {
    if k == 0 {
      WithoutAbsent(items[1..], items[0].id);
    } else {
      assert DistinctIds(items[1..]) by {
        forall i, j | 0 <= i < j < |items[1..]| ensures items[1..][i].id != items[1..][j].id {
          assert items[1..][i] == items[i + 1] && items[1..][j] == items[j + 1];
        }
      }
      assert items[1..][k - 1] == items[k];
      WithoutPresentItem(items[1..], k - 1);
    }
  }

  lemma {:induction false} WithoutAbsent(items: seq<Item>, id: string)
    requires forall i :: 0 <= i < |items| ==> items[i].id != id
    ensures WithoutItem(items, id) == items && LikesOf(items, id) == 0
  {
    if items != [] {
      WithoutAbsent(items[1..], id);
    }
  }

  /**
   * Deleting a listed item keeps "total items = number of items" (ids are
   * distinct), but the likes card is not recomputed and still counts the
   * deleted item's likes.
   */
  lemma DeleteKeepsItemCount(items: seq<Item>, stats: Stats, k: nat)
    requires DistinctIds(items) && k < |items|
    requires stats.totalItems == |items| && stats.totalLikes == SumLikes(items)
    ensures var (after, s) := DeleteItem(items, stats, items[k].id, true);
      && s.totalItems == |after|
      && s.totalLikes == SumLikes(after) + OrZero(items[k].likeCount)
  {
    WithoutPresentItem(items, k);
    SumLikesWithout(items, items[k].id);
  }

  // ---------------------------------------------------------------------
  // Restock

  /** The restock field: the number preset by `handleRestockClick`, or the text typed since. */
  datatype RestockInput = Preset(n: int) | Typed(text: string)

  /** `handleRestockClick` presets `item.availableQuantity || 0`. */
  function PresetFor(item: Item): RestockInput {
    Preset(OrZero(item.availableQuantity))
  }

  /** `!restockQuantity`: the preset 0 and the empty text are falsy; the text "0" is not. */
  predicate IsFalsy(input: RestockInput) {
    match input
    case Preset(n) => n == 0
    case Typed(t) => t == ""
  }

  predicate IsDigit(c: char) {
    '0' <= c <= '9'
  }

  /** Length of the leading run of decimal digits. */
  function DigitCount(s: string): (n: nat)
    ensures n <= |s|
    ensures forall i :: 0 <= i < n ==> IsDigit(s[i])
    ensures n < |s| ==> !IsDigit(s[n])
  {
    if s != [] && IsDigit(s[0]) then 1 + DigitCount(s[1..]) else 0
  }

  function DigitsValue(d: string): nat
    requires forall i :: 0 <= i < |d| ==> IsDigit(d[i])
  {
    if d == [] then 0
    else
      assert IsDigit(d[|d| - 1]);
      DigitsValue(d[..|d| - 1]) * 10 + (d[|d| - 1] as int - '0' as int)
  }

  /**
   * `parseInt(text)` in base 10: leading blanks, an optional sign and the
   * longest run of digits; `None` (NaN) when there is no digit.
   */
  function ParseInt(text: string): (r: Option<int>)
    ensures r.None? <==> DigitCount(SignStripped(Text.TrimStart(text))) == 0
  {
    var t := Text.TrimStart(text);
    var rest := SignStripped(t);
    var n := DigitCount(rest);
    var value: int := if n == 0 then 0 else DigitsValue(rest[..n]);
    if n == 0 then None
    else if t[0] == '-' then Some(-value)
    else Some(value)
  }

  function SignStripped(t: string): string {
    if t != [] && (t[0] == '-' || t[0] == '+') then t[1..] else t
  }

  lemma DigitCharValue(d: nat)
    requires d < 10
    ensures IsDigit(Text.DigitChar(d)) && Text.DigitChar(d) as int - '0' as int == d
  {
    assert "0123456789"[0] == '0' && "0123456789"[1] == '1' && "0123456789"[2] == '2' && "0123456789"[3] == '3';
    assert "0123456789"[4] == '4' && "0123456789"[5] == '5' && "0123456789"[6] == '6' && "0123456789"[7] == '7';
    assert "0123456789"[8] == '8' && "0123456789"[9] == '9';
  }

  /** The decimal text of `n` is all digits and reads back as `n`. */
  lemma {:induction false} NatDigitsValue(n: nat)
    ensures forall i :: 0 <= i < |Text.NatToString(n)| ==> IsDigit(Text.NatToString(n)[i])
    ensures DigitsValue(Text.NatToString(n)) == n
  {
    var s := Text.NatToString(n);
    if n < 10 {
      DigitCharValue(n);
      assert s[..0] == [];
    } else {
      NatDigitsValue(n / 10);
      DigitCharValue(n % 10);
      var prefix := Text.NatToString(n / 10);
      assert s[..|s| - 1] == prefix;
      forall i | 0 <= i < |s| ensures IsDigit(s[i]) {
        if i < |prefix| {
          assert s[i] == prefix[i];
        }
      }
    }
  }

  lemma {:induction false} DigitCountAll(s: string)
    requires forall i :: 0 <= i < |s| ==> IsDigit(s[i])
    ensures DigitCount(s) == |s|
  {
    if s != [] {
      DigitCountAll(s[1..]);
    }
  }

  /** Typing the decimal text of any integer restocks to exactly that integer. */
  lemma ParseIntRendered(n: int)
    ensures ParseInt(Text.IntToString(n)) == Some(n)
  {
    var m: nat := if n < 0 then -n else n;
    var digits := Text.NatToString(m);
    NatDigitsValue(m);
    DigitCountAll(digits);
    Text.NatDigitsLead(m);
    var text := Text.IntToString(n);
    assert !Text.IsSpace(text[0]);
    assert Text.TrimStart(text) == text;
    if n < 0 {
      assert text == "-" + digits;
      assert SignStripped(text) == digits;
    } else {
      assert text == digits;
      assert digits[0] != '-' && digits[0] != '+';
    }
    assert digits[..|digits|] == digits;
  }

  /** `parseInt(restockQuantity)`: the preset is already a number. */
  function RestockValue(input: RestockInput): Option<int> {
    match input
    case Preset(n) => Some(n)
    case Typed(t) => ParseInt(t)
  }

  /** The PUT body of the restock: the new stock and the item's own fields (NaN is sent as null). */
  function RestockRequest(item: Item, tags: seq<string>, quantity: Option<int>): FoodController.FoodUpdate {
    FoodController.FoodUpdate(item.name, item.description, item.category, Text.Join(tags, ", "), item.price, quantity)
  }

  /** The local copy after the restock: only `availableQuantity` of the matching items changes. */
  function SetStock(items: seq<Item>, id: string, quantity: Option<int>): (r: seq<Item>)
    ensures |r| == |items|
    ensures forall i :: 0 <= i < |items| ==>
      r[i].(availableQuantity := items[i].availableQuantity) == items[i] &&
      r[i].availableQuantity == if items[i].id == id then quantity else items[i].availableQuantity
  {
    seq(|items|, i requires 0 <= i < |items| =>
      if items[i].id == id then items[i].(availableQuantity := quantity) else items[i])
  }

  datatype RestockOutcome = Refused | Failed | Restocked(items: seq<Item>)

  /**
   * `handleRestockSubmit`: refused ("Please enter a quantity") without a
   * selected item or with a falsy quantity; it fails when the item has no
   * tags list to join or the PUT fails; otherwise the local stock is set.
   */
  function RestockSubmit(items: seq<Item>, selected: Option<Item>, input: RestockInput, succeeded: bool): (r: RestockOutcome)
    ensures r == Refused <==> selected.None? || IsFalsy(input)
    ensures r.Restocked? <==> selected.Some? && !IsFalsy(input) && selected.value.tags.Some? && succeeded
    ensures r.Restocked? ==> r.items == SetStock(items, selected.value.id, RestockValue(input))
  {
    if selected.None? || IsFalsy(input) then Refused
    else if selected.value.tags.None? || !succeeded then Failed
    else Restocked(SetStock(items, selected.value.id, RestockValue(input)))
  }

  /** The dashboard item shows the stored food's own fields. */
  predicate Mirrors(item: Item, food: Models.Food) {
    && item.name == food.name && item.description == food.description && item.category == food.category
    && item.tags == Some(food.tags) && item.price == Some(food.price)
  }

  /**
   * The restock PUT, handled by `updateFood`, changes the stock alone, and
   * leaves it as it was when the new quantity is 0.
   */
  lemma RestockRequestChangesOnlyStock(item: Item, food: Models.Food, n: int)
    requires Mirrors(item, food)
    requires forall i :: 0 <= i < |food.tags| ==> food.tags[i] != "" && Text.IsTrimmed(food.tags[i]) && ',' !in food.tags[i]
    ensures FoodController.Updated(food, RestockRequest(item, food.tags, Some(n)), None) ==
      food.(availableQuantity := if n != 0 then n else food.availableQuantity)
  {
    FoodController.TagsRoundTrip(food.tags);
  }

  /**
   * Typing "0" passes the dialog's check and the dashboard shows stock 0,
   * while the server keeps the old stock: the two copies disagree.
   */
  lemma RestockToZeroDiverges(item: Item, food: Models.Food)
    requires Mirrors(item, food) && food.availableQuantity != 0
    requires forall i :: 0 <= i < |food.tags| ==> food.tags[i] != "" && Text.IsTrimmed(food.tags[i]) && ',' !in food.tags[i]
    ensures RestockSubmit([item], Some(item), Typed("0"), true) == Restocked([item.(availableQuantity := Some(0))])
    ensures FoodController.Updated(food, RestockRequest(item, food.tags, RestockValue(Typed("0"))), None).availableQuantity
      == food.availableQuantity
  {
    assert DigitCount("0") == 1;
    assert DigitsValue("0"[..1]) == 0 by {
      assert "0"[..1] == "0" && "0"[..0] == [];
    }
    assert ParseInt("0") == Some(0);
    assert SetStock([item], item.id, Some(0)) == [item.(availableQuantity := Some(0))];
    RestockRequestChangesOnlyStock(item, food, 0);
  }
}
