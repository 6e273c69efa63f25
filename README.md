# Food-ordering app: verified model of the ordering and catalog logic

This project is a Dafny model of the sequential logic of a short-video food-ordering app. The app has an Express/Mongoose
API and a React client. The model covers these parts:

- **Order controller.** Placing an order validates the request, prices every line from the catalog, sums the total,
  stores the order and decrements stock. The user's and the partner's order lists. The partner's status update.
- **Food controller.** The like and save toggles and their counters. Comma-separated tag parsing. The falsy-field
  fallback of an update. The owner checks and the cascading delete. The related-foods merge of tag matches and
  category matches.
- **Follow controller.** The follow/unfollow toggle and the partner's `followersCount`.
- **Client cart.** The cart provider's updaters and its two totals.
- **Client pages.** The product page (quantity stepper, repeated add-to-cart), the partner's order page (stage
  progression, progress dots, icons), the partner dashboard (stats, out-of-stock list, delete, restock), the partner
  profile (cuisines, average likes, price range, follow button) and the explore page (search, newest-first order).

The database collections are in-memory values:

- the food catalog is a `map` from id to `Food`;
- the order, like, save, follow and comment collections are sequences.

Three controllers change these collections in place. Each is a `class` whose methods keep an invariant:

- `OrderService.Store`
- `FoodController.FoodStore`
- `FollowController.FollowStore`

An invariant example: every like counter equals the number of like records for that food. The loops of the source
(`createOrder`'s validation and decrement loops, the product page's add loop, the dashboard's stats load, the profile's
cuisine collection) are `while`/`for` methods. Each is proved against a specification function. Every other piece is a
function with its properties proved as lemmas.

Values are modelled as follows:

- Prices and amounts are integers, as the stored numbers are; the profile prints them as stored.
- A missing or falsy request field is `""` or `None`.
- `toLowerCase` is ASCII case folding. The blanks `trim` and `parseInt` skip are ECMAScript's WhiteSpace and
  LineTerminator characters (sections 12.2 and 12.3 of ECMA-262).
- The clock (`createdAt`), the upload service (a video URL) and the outcome of each HTTP call the client makes are
  parameters.

Shared modules:

- `Wrappers`: `Option`.
- `Text`: trim, split, join, lower-case, `includes`, integer to decimal text.
- `Seqs`: `filter`, a comparator sort, subsequences.
- `Records`: the `(owner, target)` documents of the like, save and follow collections.
- `Models`: the backend `Food`, the error kinds and `Result`.

Where the code and its description differ, the model follows the code. In particular:

- The food schema declares no `price`, `availableQuantity`, `category`, `tags` or `saveCount`, but the controllers read
  and write all of them. `Models.Food` carries every field the controllers use.
- The like and save collections have no unique index. The model keeps the invariant that no document occurs twice, which
  holds as long as every write goes through the toggles.
- The food schema has no `timestamps` option, so a food carries no `createdAt` and the explore page's date comparator
  compares NaN. `Explore.Loaded` models the newest-first order the page is written for (see "Left out").

## Model

| member | source | states |
|---|---|---|
| OrderService.CheckItem | Backend/src/controllers/ordercontroller.js:22-28 | A line passes exactly when its food exists and the stock before the order covers its quantity; otherwise 404 for an unknown food, else 400 for short stock |
| OrderService.FirstRejection | Backend/src/controllers/ordercontroller.js:21-36 | No rejection iff every line passes; otherwise the rejection of some failing line with every earlier line passing |
| OrderService.FirstRejectionAt | Backend/src/controllers/ordercontroller.js:21-28 | When lines before k pass and line k fails, the reply is line k's rejection (first failure wins) |
| OrderService.RequestRejection | Backend/src/controllers/ordercontroller.js:9-28 | Missing or empty items give 400 first, then a missing or blank address gives 400; once both are present the reply is `FirstRejection` of the lines; no rejection iff all checks pass |
| OrderService.PriceLines | Backend/src/controllers/ordercontroller.js:29-34 | One stored line per request line, in request order, with the same food and quantity and the catalog price |
| OrderService.Total | Backend/src/controllers/ordercontroller.js:17-35 | `totalAmount` of lines with non-negative prices and quantities is never negative |
| OrderService.Decremented | Backend/src/controllers/ordercontroller.js:47-51 | Same foods; each food's stock drops by the summed quantity of the lines naming it, every other field kept |
| OrderService.DecrementStep | Backend/src/controllers/ordercontroller.js:47-51 | One more `$inc` lowers exactly that line's food by its quantity |
| OrderService.UnnamedFoodUntouched | Backend/src/controllers/ordercontroller.js:47-51 | A food that no line names keeps its stock |
| OrderService.QuantityForDistinct | Backend/src/controllers/ordercontroller.js:47-51 | With distinct foods, a food's summed quantity is its one line's quantity |
| OrderService.DistinctFoodsKeepStock | Backend/src/controllers/ordercontroller.js:26-51 | An accepted request with distinct food ids leaves every named food's stock at 0 or above |
| OrderService.DuplicateLinesOverdraw | Backend/src/controllers/ordercontroller.js:26-51 | Two lines for one food can each pass the pre-order check and drive its stock negative |
| OrderService.NonPositiveQuantityAccepted | Backend/src/controllers/ordercontroller.js:26-51 | A quantity of 0 or less passes, adds a non-positive amount and raises the stock |
| Seqs.DescendingIsTotalPreorder | Backend/src/controllers/ordercontroller.js:68 | A descending order on a key, as `createdAt: -1` and the explore page's date comparator use, is a total preorder, so sorting by it is well defined |
| OrderService.OwnsAnyLine | Backend/src/controllers/ordercontroller.js:125-127 | `some` over the populated lines: true only if a line's food is the partner's; a deleted food met before a match is a 500 |
| OrderService.Store.CreateOrder | Backend/src/controllers/ordercontroller.js:4-61 | On a rejection nothing changes; otherwise one order is appended with the priced lines and their total, and the catalog is decremented |
| OrderService.Store.ValidateItems | Backend/src/controllers/ordercontroller.js:17-36 | The validation loop returns the first rejection, or the priced lines and `totalAmount` = Σ price × quantity; it writes nothing |
| OrderService.Store.DecrementStock | Backend/src/controllers/ordercontroller.js:47-51 | The decrement loop leaves the catalog equal to `Decremented` and the orders unchanged |
| OrderService.Store.UserOrders | Backend/src/controllers/ordercontroller.js:63-74 | Exactly the user's orders, each as many times as it is stored and no other, newest first |
| OrderService.Store.OrderDetails | Backend/src/controllers/ordercontroller.js:76-90 | The order iff it exists and belongs to the user; otherwise 404 |
| OrderService.Store.PartnerOrders | Backend/src/controllers/ordercontroller.js:92-112 | Exactly the orders with a line for one of the partner's foods, each as many times as it is stored, newest first |
| OrderService.Store.UpdateOrderStatus | Backend/src/controllers/ordercontroller.js:114-139 | 404 for an unknown order, 403 when no line is the partner's, 500 on a deleted food; otherwise only that order's status becomes the sent value |
| OrderService.PartnerListMatchesGuard | Backend/src/controllers/ordercontroller.js:104-127 | An order the partner may update is in the partner's list, and the converse while its foods exist |
| Records.RemoveFirst | Backend/src/controllers/foodcontroller.js:130 | `deleteOne` removes one copy of a present document and changes nothing otherwise |
| Records.RemoveTarget | Backend/src/controllers/foodcontroller.js:380-384 | `deleteMany({ food })` keeps exactly the documents of other targets |
| Records.RemoveTargetShrinks | Backend/src/controllers/foodcontroller.js:380-384 | `deleteMany` only removes documents: the result is a sub-multiset of the collection |
| Records.ToggleNoDup | Backend/src/controllers/foodcontroller.js:124-141 | A toggle keeps the collection free of duplicates and flips whether the document is present |
| Records.ToggleCount | Backend/src/controllers/foodcontroller.js:124-141 | A toggle moves its own target's count by exactly ±1 and no other count |
| Records.ToggleTwice | Backend/src/controllers/foodcontroller.js:124-141 | Toggling the same document twice restores the collection |
| Records.CountRemoveTarget | Backend/src/controllers/foodcontroller.js:380-384 | After `deleteMany` the target's count is 0 and every other count is kept |
| FoodController.TrimAndDropIsMapFilter | Backend/src/controllers/foodcontroller.js:16 | The tags are exactly the pieces' trims with the empty ones dropped, in piece order (`map(trim).filter(tag => tag)`) |
| FoodController.TrimAndDropMembers | Backend/src/controllers/foodcontroller.js:16 | A tag is kept iff it is non-empty and the trim of some piece |
| FoodController.TrimAndDropClean | Backend/src/controllers/foodcontroller.js:16 | Every kept piece is non-empty and has no whitespace at either end |
| FoodController.TrimAndDropNoComma | Backend/src/controllers/foodcontroller.js:16 | Comma-free pieces give comma-free tags |
| FoodController.ParseTags | Backend/src/controllers/foodcontroller.js:16 | Every tag is non-empty, trimmed and comma-free; an absent field gives no tags |
| FoodController.UpdatedTags | Backend/src/controllers/foodcontroller.js:335 | An absent field keeps the stored tags; a present one is parsed |
| FoodController.BlankTagsClear | Backend/src/controllers/foodcontroller.js:335 | A field of blanks is truthy and clears the tags |
| FoodController.TagsRoundTrip | Backend/src/controllers/foodcontroller.js:16 | Parsing clean tags joined by ", " gives back the same tags |
| FoodController.Updated | Backend/src/controllers/foodcontroller.js:327-347 | The update document keeps the counters and the owner, and the video when no file is uploaded |
| FoodController.TruthyFieldsTaken | Backend/src/controllers/foodcontroller.js:335-347 | Every truthy submitted field (name, description, category, tags, price, stock) and an uploaded video's url is what the updated document holds; an empty url never reaches the document, as `UpdateFood` answers 500 for it |
| FoodController.OrText | Backend/src/controllers/foodcontroller.js:340-342 | The falsy fallback on text gives one of the two, and the stored one exactly when the submission is empty or equal |
| FoodController.OrNumber | Backend/src/controllers/foodcontroller.js:344-345 | The falsy fallback on a number takes the submission unless it is absent or 0 (or already stored) |
| FoodController.UpdateCannotZeroStock | Backend/src/controllers/foodcontroller.js:344-345 | Stock and price become 0 through an update only if they already were 0 |
| FoodController.BumpLikes | Backend/src/controllers/foodcontroller.js:131-140 | `$inc` on `likeCount` changes that food's like counter by d and nothing else |
| FoodController.BumpSaves | Backend/src/controllers/foodcontroller.js:163-171 | `$inc` on `saveCount` changes that food's save counter by d and nothing else |
| FoodController.LikeTwiceRestores | Backend/src/controllers/foodcontroller.js:124-141 | Two like toggles by one user restore the like records and every counter |
| FoodController.SaveTwiceRestores | Backend/src/controllers/foodcontroller.js:156-173 | Two save toggles by one user restore the save records and every counter |
| FoodController.FoodStore.ToggleLike | Backend/src/controllers/foodcontroller.js:115-145 | 400 and no change without a food or an actor; otherwise the like is deleted (200, −1) or created (201, +1), and counters keep matching the records |
| FoodController.FoodStore.ToggleSave | Backend/src/controllers/foodcontroller.js:147-177 | The same toggle on saves and `saveCount` |
| FoodController.FoodStore.CreateFood | Backend/src/controllers/foodcontroller.js:7-43 | Without an uploaded file or a name it is a 500 and changes nothing; otherwise a food with parsed tags and zero counters is added |
| FoodController.FoodStore.UpdateFood | Backend/src/controllers/foodcontroller.js:313-363 | 404 for an unknown food, 403 for another partner's, 500 with nothing written when the upload result has an empty url; otherwise the food becomes `Updated`, and likes, saves and comments are kept |
| FoodController.FoodStore.DeleteFood | Backend/src/controllers/foodcontroller.js:365-400 | 404 and 403 change nothing; otherwise the food and every like, save and comment naming it are removed, and every other record is kept |
| FoodController.FindEntry | Backend/src/controllers/foodcontroller.js:272 | `findById` finds a document iff one has the id |
| FoodController.Take | Backend/src/controllers/foodcontroller.js:285-304 | `limit`/`slice` keep the first n elements, or all of them |
| FoodController.Query | Backend/src/controllers/foodcontroller.js:282-296 | min(`limit`, number of matches) matching documents, each at most as often as stored, most liked (then most saved) first, and no match left out is more popular than one kept |
| FoodController.CandidatesShape | Backend/src/controllers/foodcontroller.js:280-299 | Every candidate is another food that shares a tag or the category; tag matches come first; no category matches when there are ≥6 tag matches or no category |
| FoodController.Candidates | Backend/src/controllers/foodcontroller.js:280-299 | At most the 8 tag matches, and at most 6 once category matches are added |
| FoodController.CandidatesNonEmpty | Backend/src/controllers/foodcontroller.js:280-299 | There are candidates iff some other food shares a tag or the set category |
| FoodController.DedupeFrom | Backend/src/controllers/foodcontroller.js:302-303 | Of the entries whose id is not yet seen, exactly the first of each id is kept, in input order, and the kept ids are distinct |
| FoodController.DedupeKeepsIds | Backend/src/controllers/foodcontroller.js:302-303 | Every id of the input survives the de-duplication |
| FoodController.RelatedFoods | Backend/src/controllers/foodcontroller.js:269-311 | 404 iff the food is unknown; otherwise min(6, distinct candidates) foods with distinct ids, none of them the food itself, each sharing a tag or the category, tag matches first; empty iff no other food shares a tag or the category |
| FollowController.AtLeastZero | Backend/src/controllers/followcontroller.js:38 | `Math.max(n, 0)` is at least 0 and at least n, and n itself when n ≥ 0 |
| FollowController.FollowTwiceRestores | Backend/src/controllers/followcontroller.js:22-53 | Follow then unfollow (or the reverse) restores the follow records and every counter |
| FollowController.FollowStore.FollowPartner | Backend/src/controllers/followcontroller.js:4-57 | 401, then 400, then 404, each changing nothing; otherwise the follow is deleted (−1, not following) or created (+1, following), and counters keep matching the records |
| CartContext.AddToCart | Frontend/src/CartContext.jsx:30-43 | A present id has its entry bumped by one with length and other entries kept; a new id is appended with quantity 1 |
| CartContext.AddExisting | Frontend/src/CartContext.jsx:32-38 | With distinct ids, adding a present product bumps exactly its entry |
| CartContext.RemoveFromCart | Frontend/src/CartContext.jsx:45-47 | Every entry with the id goes and the others stay in order |
| CartContext.RemoveAbsent | Frontend/src/CartContext.jsx:45-47 | Removing an absent id changes nothing |
| CartContext.UpdateQuantity | Frontend/src/CartContext.jsx:49-59 | A quantity ≤ 0 is `removeFromCart`; otherwise only matching entries take the quantity |
| CartContext.ClearCart | Frontend/src/CartContext.jsx:61-63 | The cart becomes empty |
| CartContext.TotalItems | Frontend/src/CartContext.jsx:65-67 | With every quantity at least 1, the item total is at least the number of entries |
| CartContext.TotalPriceNonNegative | Frontend/src/CartContext.jsx:69-71 | With non-negative quantities and unit prices, the price total is never negative |
| CartContext.UnitPrice | Frontend/src/CartContext.jsx:70 | A missing or zero price counts as 100 |
| CartContext.AddToCartTotals | Frontend/src/CartContext.jsx:65-71 | With distinct ids, `addToCart` raises the item total by 1 and the price total by one unit of that entry |
| CartContext.UpdatersKeepIdsDistinct | Frontend/src/CartContext.jsx:30-59 | Add, remove and update keep the cart's ids pairwise distinct |
| CartContext.UpdatersKeepQuantitiesPositive | Frontend/src/CartContext.jsx:30-59 | Add, remove and update keep every quantity at 1 or more, so (by `TotalItems`) the item total is at least the number of entries |
| ProductDetail.StockBound | Frontend/src/General/ProductDetail.jsx:73 | The stepper bound is the stock, or 1 when the stock is falsy |
| ProductDetail.SelectQuantity | Frontend/src/General/ProductDetail.jsx:72-76 | The selection moves to n only when 1 ≤ n ≤ bound |
| ProductDetail.SelectionStaysInRange | Frontend/src/General/ProductDetail.jsx:16-76 | Starting at 1, the selection stays between 1 and the bound |
| ProductDetail.QuantityInCart | Frontend/src/General/ProductDetail.jsx:96-97 | 0 when the product is not in the cart |
| ProductDetail.QuantityAt | Frontend/src/General/ProductDetail.jsx:96-97 | With distinct ids, the count shown is the product's entry quantity |
| ProductDetail.AddToCartQuantity | Frontend/src/General/ProductDetail.jsx:57 | One `addToCart` raises the count shown by exactly 1 |
| ProductDetail.AddTimesEffect | Frontend/src/General/ProductDetail.jsx:56-58 | q adds raise the product's count and the item total by q and keep ids distinct |
| ProductDetail.AddTimes | Frontend/src/General/ProductDetail.jsx:56-58 | After one add or more the product is in the cart, with one new entry only when it was absent |
| ProductDetail.AddUnits | Frontend/src/General/ProductDetail.jsx:56-58 | The loop's cart is q applications of `addToCart` |
| ProductDetail.HandleAddToCart | Frontend/src/General/ProductDetail.jsx:54-61 | No change without a product or a positive quantity; otherwise q units are added |
| ProductDetail.HandleBuyNow | Frontend/src/General/ProductDetail.jsx:63-70 | The same units are added and the page moves to the cart, exactly when there is a product and a positive quantity |
| ProductDetail.ActionsDisabled | Frontend/src/General/ProductDetail.jsx:187-194 | Both buttons are disabled iff the stock is not positive |
| ProductDetail.CartCanExceedStock | Frontend/src/General/ProductDetail.jsx:54-76 | Two full-stock purchases put twice the stock in the cart |
| PartnerOrders.IndexOf | Frontend/src/Food-partner/PartnerOrders.jsx:45 | `indexOf` gives the first position of x, or −1 iff x is absent |
| PartnerOrders.StatusIndex | Frontend/src/Food-partner/PartnerOrders.jsx:43-46 | The stage position, −1 iff the status is no stage |
| PartnerOrders.NextStatus | Frontend/src/Food-partner/PartnerOrders.jsx:113-127 | An action exists iff the status is one of the first three stages, and it names the stage after it |
| PartnerOrders.StagesIndexed | Frontend/src/Food-partner/PartnerOrders.jsx:44 | The four stages have indexes 0 to 3 |
| PartnerOrders.NextStatusAdvancesOneStage | Frontend/src/Food-partner/PartnerOrders.jsx:113-127 | An action is offered iff the stage is one of the first three, and it moves exactly one stage forward |
| PartnerOrders.ApplyStatus | Frontend/src/Food-partner/PartnerOrders.jsx:29-41 | After success only matching orders' statuses change; after failure nothing does |
| PartnerOrders.DotsFollowStage | Frontend/src/Food-partner/PartnerOrders.jsx:88-93 | Dot i is active iff it is the order's stage, completed iff it is at or before it; an unknown status marks none |
| PartnerOrders.StatusIcon | Frontend/src/Food-partner/PartnerOrders.jsx:48-56 | A stage's own icon, the question mark for any other status |
| PartnerDashboard.LoadStats | Frontend/src/Food-partner/PartnerDashboard.jsx:43-66 | The `reduce` loops compute the like and save sums (missing as 0) and the earnings, with the item and order counts; both order stats are 0 when the orders fetch fails |
| PartnerDashboard.OutOfStock | Frontend/src/Food-partner/PartnerDashboard.jsx:207-211 | Exactly the items with stock ≤ 0, in list order |
| PartnerDashboard.DeleteItem | Frontend/src/Food-partner/PartnerDashboard.jsx:80-100 | After success exactly the items without the id remain, in list order, and `totalItems` drops by 1; after failure nothing changes |
| PartnerDashboard.SumLikesWithout | Frontend/src/Food-partner/PartnerDashboard.jsx:90-94 | Removing the items with an id takes exactly their likes out of the sum |
| PartnerDashboard.DeleteKeepsItemCount | Frontend/src/Food-partner/PartnerDashboard.jsx:90-94 | With distinct ids the item count stays equal to the list length, while the likes card still counts the deleted item |
| PartnerDashboard.ParseInt | Frontend/src/Food-partner/PartnerDashboard.jsx:118 | `parseInt` is NaN iff no digit follows the leading blanks and sign |
| PartnerDashboard.ParseIntRendered | Frontend/src/Food-partner/PartnerDashboard.jsx:118 | The decimal text of any integer parses back to it |
| PartnerDashboard.SetStock | Frontend/src/Food-partner/PartnerDashboard.jsx:128-132 | Only `availableQuantity` of the matching items changes |
| PartnerDashboard.RestockSubmit | Frontend/src/Food-partner/PartnerDashboard.jsx:107-132 | Refused iff no item is selected or the quantity is falsy; restocked iff also the tags join and the PUT succeeds |
| PartnerDashboard.RestockRequestChangesOnlyStock | Frontend/src/Food-partner/PartnerDashboard.jsx:115-126 | The restock PUT, handled by `updateFood`, changes only the stock, and keeps it when the new value is 0 |
| PartnerDashboard.RestockToZeroDiverges | Frontend/src/Food-partner/PartnerDashboard.jsx:107-132 | Typing "0" shows stock 0 on the dashboard while the server keeps the old stock |
| Profile.UniqueCuisines | Frontend/src/Food-partner/Profile.jsx:121-131 | At most 3 distinct words, the first of the collected categories and tags in first-seen order, each one an item's category or tag; none for no items |
| Profile.CollectedMember | Frontend/src/Food-partner/Profile.jsx:123-129 | A word is collected iff some item has it as a set category or as a tag |
| Profile.CollectedNoRepeats | Frontend/src/Food-partner/Profile.jsx:123-129 | The collected words have no repeats |
| Profile.CollectedPrefix | Frontend/src/Food-partner/Profile.jsx:123-129 | Visiting more items only appends words (first-seen order) |
| Profile.RoundDiv | Frontend/src/Food-partner/Profile.jsx:136 | `Math.round(total / n)`: within one half of the mean, halves rounded up |
| Profile.AverageLikes | Frontend/src/Food-partner/Profile.jsx:133-137 | 0 for no items, otherwise the rounded mean like count (missing as 0) |
| Profile.PositivePrices | Frontend/src/Food-partner/Profile.jsx:141 | Exactly the positive prices of the items |
| Profile.Min | Frontend/src/Food-partner/Profile.jsx:143 | `Math.min` is a member and a lower bound |
| Profile.Max | Frontend/src/Food-partner/Profile.jsx:144 | `Math.max` is a member and an upper bound |
| Profile.PriceRangeOf | Frontend/src/Food-partner/Profile.jsx:139-147 | N/A iff no item has a positive price; one price when all are equal; otherwise min < max, both prices, bounding all the others |
| Profile.PriceRangeLabel | Frontend/src/Food-partner/Profile.jsx:139-147 | "N/A" exactly for no price; one price prints once after ₹; a span prints the two single labels joined by " - " |
| Profile.FollowerLabel | Frontend/src/Food-partner/Profile.jsx:118-119 | Singular iff the total is exactly 1 |
| Profile.FollowToggle | Frontend/src/Food-partner/Profile.jsx:89-112 | Nothing happens without an id or while loading; on a reply, the state follows it and the count is kept when the reply has no number; on a failure, the message is shown |
| Explore.Loaded | Frontend/src/General/Explore.jsx:34-39 | The fetched foods as a permutation, sorted by `createdAt` descending |
| Explore.Filtered | Frontend/src/General/Explore.jsx:18-21 | A food is kept iff its lower-cased name or a lower-cased tag contains the lower-cased query; the result is a subsequence |
| Explore.SearchIgnoresQueryCase | Frontend/src/General/Explore.jsx:18-21 | Lower-casing the query first changes nothing |
| Explore.EmptyQueryKeepsAll | Frontend/src/General/Explore.jsx:18-21 | The empty query keeps every food, in order |
| Explore.NameFound | Frontend/src/General/Explore.jsx:19 | A food is found by its own name |
| Explore.PageView | Frontend/src/General/Explore.jsx:79-130 | "No foods available" iff there are no foods, "No foods found" iff none matches, else the filtered grid |
| Explore.ButtonLabel | Frontend/src/General/Explore.jsx:120 | "Add to Cart" iff the stock is positive, else "Out of Stock" |
| Explore.DisabledIffOutOfStock | Frontend/src/General/Explore.jsx:118-120 | The button is disabled iff it reads "Out of Stock" |
| Explore.AddClicked | Frontend/src/General/Explore.jsx:114-118 | An enabled click is `addToCart` of the food |

## Left out

- Persistence: the Mongoose calls are modelled as operations on in-memory maps and sequences, and `populate` as a map
  lookup. ObjectId cast errors (a malformed id throwing a 500) are not modelled.
- Concurrency: races between `createOrder`'s validation and its decrement, and between concurrent toggles, are not
  modelled. The model is the sequential semantics.
- Randomness: the shuffle of the food feed is not part of this model.
- Uploads and ids: the storage service and `uuid` are not modelled. An upload is a parameter holding the returned URL,
  and a new food's id is a fresh parameter.
- Authentication: cookies, JWTs and password hashing are not modelled. The requesting user or partner is a parameter
  (`""` when absent).
- Floating point: prices, totals, earnings, `toFixed` and `Math.round` are integers with integer rounding; a
  fractional price is not modelled.
- UI and browser code: rendering, toasts, navigation, timers, video playback, `localStorage` persistence of the cart,
  and the feed pages' optimistic counters.
- Route wiring and the schema files are not modelled. The schemas only informed the datatypes.
- FoodController.FoodStore.CreateFood: the multipart body's numbers arrive as strings; the model takes them as already
  cast integers. The upload result is its `url` text; a result without a `url` is taken as an empty url, which fails
  alike (the required `video` is missing).
- FoodController.FoodStore.UpdateFood: the upload result is its `url` text, and a result without a `url` is taken as an
  empty url. In the source both make `url || result` the result object, which the string `video` cannot hold, so the
  write fails with 500, as modelled.
- FoodController.Updated: a submitted number is taken as already cast, so the string "0" (truthy in the source) is
  modelled like 0.
- FoodController.Query: the sort is any order that ranks by like count and then save count. Ties are not ordered, and
  the database's tie order is not modelled.
- OrderService.Store.UserOrders: orders with equal `createdAt` may come in any order; the stored tie order is not
  modelled.
- Explore.Loaded: `createdAt` is taken as always present. The food schema has no timestamps, so in the source every
  date is missing, every comparison is NaN and the sort keeps the server's shuffled order; that order is not modelled.
- OrderService.CheckItem: a request line always has an integer `quantity`. In the source a line without one passes the
  stock check (`availableQuantity < undefined` is false) and makes `totalAmount` NaN; that case is not modelled.
- PartnerDashboard.ParseInt: hexadecimal prefixes and the special cases of very long digit runs are not modelled.
- PartnerOrders.StatusIcon: keys inherited from the object prototype (such as "constructor") are not modelled; any
  other status gives the fallback icon.
- Profile.AverageLikes: the division is exact rational rounding. The floating-point error of `total / n` is not
  modelled.
- Profile.FollowToggle: the request itself is the parameter `response`. React's batching of the loading flag is not
  modelled.
