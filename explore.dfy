/**
 * The explore page: every food, newest first, narrowed by a case-insensitive
 * search on the name and the tags, with an add-to-cart button per food.
 */
module Explore {
  import opened Wrappers
  import Text
  import Seqs
  import CartContext
  import ProductDetail

  /** A food as the page reads it: the fields the cart keeps, its tags and its creation time. */
  datatype ExploreFood = ExploreFood(product: CartContext.Product, tags: Option<seq<string>>, createdAt: int)

  // ---------------------------------------------------------------------
  // Ordering

  /** The key of the comparator `new Date(b.createdAt) - new Date(a.createdAt)`: newest first. */
  function CreatedAt(food: ExploreFood): int {
    food.createdAt
  }

  /** The list `fetchFoods` stores: the fetched foods sorted newest first. */
  function Loaded(fetched: seq<ExploreFood>): (r: seq<ExploreFood>)
    ensures multiset(r) == multiset(fetched)
    ensures forall i, j :: 0 <= i < j < |r| ==> r[i].createdAt >= r[j].createdAt
  {
    Seqs.SortByDescending(fetched, CreatedAt);
    Seqs.SortBy(fetched, Seqs.Descending(CreatedAt))
  }

  // ---------------------------------------------------------------------
  // Search

  /** Some lower-cased tag contains the lower-cased query. */
  predicate TagMatches(tags: Option<seq<string>>, query: string) {
    tags.Some? && exists i :: 0 <= i < |tags.value| && Text.Contains(Text.Lower(tags.value[i]), Text.Lower(query))
  }

  /** The search predicate of `filteredFoods`. */
  predicate Matches(food: ExploreFood, query: string) {
    Text.Contains(Text.Lower(food.product.name), Text.Lower(query)) || TagMatches(food.tags, query)
  }

  /** `filteredFoods`: the matching foods, in the page's order. */
  function Filtered(foods: seq<ExploreFood>, query: string): (r: seq<ExploreFood>)
    ensures forall x :: x in r <==> x in foods && Matches(x, query)
    ensures Seqs.IsSubsequence(r, foods)
  {
    var r := Seqs.Filter(foods, (f: ExploreFood) => Matches(f, query));
    Seqs.SubsequenceMembers(r, foods);
    r
  }

  lemma LowerCharIdempotent(c: char)
    ensures Text.LowerChar(Text.LowerChar(c)) == Text.LowerChar(c)
  {
  }

  lemma LowerIdempotent(s: string)
    ensures Text.Lower(Text.Lower(s)) == Text.Lower(s)
  {
    forall i | 0 <= i < |s| ensures Text.Lower(Text.Lower(s))[i] == Text.Lower(s)[i] {
      LowerCharIdempotent(s[i]);
    }
  }

  /** The search ignores the case of the query. */
  lemma SearchIgnoresQueryCase(foods: seq<ExploreFood>, query: string)
    ensures Filtered(foods, Text.Lower(query)) == Filtered(foods, query)
  {
    LowerIdempotent(query);
    Seqs.FilterAgree(foods, (f: ExploreFood) => Matches(f, Text.Lower(query)), (f: ExploreFood) => Matches(f, query));
  }

  lemma ContainsEmpty(s: string)
    ensures Text.Contains(s, "")
  {
    Text.ContainsAt(s, "", 0);
  }

  /** The empty query keeps every food, in order. */
  lemma EmptyQueryKeepsAll(foods: seq<ExploreFood>)
    ensures Filtered(foods, "") == foods
  {
    forall x | x in foods ensures Matches(x, "") {
      ContainsEmpty(Text.Lower(x.product.name));
    }
    Seqs.FilterAll(foods, (f: ExploreFood) => Matches(f, ""));
  }

  /** A food whose name is the query, in any case, is always found. */
  lemma NameFound(foods: seq<ExploreFood>, k: nat)
    requires k < |foods|
    ensures foods[k] in Filtered(foods, foods[k].product.name)
  {
    var name := Text.Lower(foods[k].product.name);
    Text.ContainsAt(name, name, 0);
    assert name[0..|name|] == name;
  }

  // ---------------------------------------------------------------------
  // The page

  /** What the page shows below the search bar. */
  datatype View = NoResults | NoneAvailable | Grid(cards: seq<ExploreFood>)

  /** "No foods found" when the search hides every food, "No foods available" when there are none. */
  function PageView(foods: seq<ExploreFood>, query: string): (r: View)
    ensures r == NoneAvailable <==> foods == []
    ensures r == NoResults <==> foods != [] && forall x :: x in foods ==> !Matches(x, query)
    ensures r.Grid? ==> r.cards == Filtered(foods, query) && r.cards != []
  {
    var shown := Filtered(foods, query);
    if shown == [] && |foods| > 0 then
      assert forall x :: x in foods ==> !Matches(x, query);
      NoResults
    else if shown == [] then NoneAvailable
    else
      assert shown[0] in foods && Matches(shown[0], query);
      Grid(shown)
  }

  /** The card button's label: "Add to Cart" exactly when the stock is positive. */
  function ButtonLabel(food: ExploreFood): (r: string)
    ensures r == "Add to Cart" <==> food.product.availableQuantity.Some? && food.product.availableQuantity.value > 0
    ensures r == "Add to Cart" || r == "Out of Stock"
  {
    if food.product.availableQuantity.Some? && food.product.availableQuantity.value > 0 then "Add to Cart"
    else "Out of Stock"
  }

  /** The button is disabled exactly when it reads "Out of Stock". */
  lemma DisabledIffOutOfStock(food: ExploreFood)
    ensures ProductDetail.ActionsDisabled(food.product) <==> ButtonLabel(food) == "Out of Stock"
  {
  }

  /** A click adds the card's food to the cart, when the button is enabled. */
  function AddClicked(cart: CartContext.Cart, food: ExploreFood): (r: CartContext.Cart)
    ensures ProductDetail.ActionsDisabled(food.product) ==> r == cart
    ensures !ProductDetail.ActionsDisabled(food.product) ==> r == CartContext.AddToCart(cart, food.product)
  {
    if ProductDetail.ActionsDisabled(food.product) then cart else CartContext.AddToCart(cart, food.product)
  }
}
