/**
 * The food controller: the like and save toggles with their counters, the
 * partner's create, update and delete of a food item (tag parsing, the
 * falsy-field fallback, the ownership checks and the cascading delete), and
 * the related-foods recommendation.
 */
module FoodController {
  import opened Wrappers
  import opened Models
  import opened Records
  import Text
  import Seqs

  const FoodAndUserRequired := "Food and user are required"
  const FoodItemNotFound := "Food item not found"
  const NotAuthorizedToUpdate := "Not authorized to update this food item"
  const NotAuthorizedToDelete := "Not authorized to delete this food item"
  const FoodNotFound := "Food not found"

  // ---------------------------------------------------------------------
  // Tags: `tags.split(',').map(tag => tag.trim()).filter(tag => tag)`

  /** Trim every piece and drop the pieces that become empty. */
  function TrimAndDrop(pieces: seq<string>): (r: seq<string>)
    ensures |r| <= |pieces|
  {
    if pieces == [] then []
    else
      var t := Text.Trim(pieces[0]);
      if t == "" then TrimAndDrop(pieces[1..]) else [t] + TrimAndDrop(pieces[1..])
  }

  /** Every kept piece is non-empty and trimmed. */
  lemma {:induction false} TrimAndDropClean(pieces: seq<string>)
    ensures forall i :: 0 <= i < |TrimAndDrop(pieces)| ==>
      TrimAndDrop(pieces)[i] != "" && Text.IsTrimmed(TrimAndDrop(pieces)[i])
  {
    if pieces != [] {
      TrimAndDropClean(pieces[1..]);
      var rest := TrimAndDrop(pieces[1..]);
      var t := Text.Trim(pieces[0]);
      if t != "" {
        var r := TrimAndDrop(pieces);
        assert r == [t] + rest;
        assert Text.IsTrimmed(t);
        forall i | 0 <= i < |r| ensures r[i] != "" && Text.IsTrimmed(r[i]) {
          if i == 0 {
            assert r[i] == t;
          } else {
            assert r[i] == rest[i - 1];
          }
        }
      }
    }
  }

  /** `pieces.map(tag => tag.trim())`. */
  function TrimAll(pieces: seq<string>): seq<string> {
    seq(|pieces|, i requires 0 <= i < |pieces| => Text.Trim(pieces[i]))
  }

  /** `tag => tag`: a tag is kept when it is not the empty string. */
  predicate NonBlank(t: string) {
    t != ""
  }

  /** Trimming and dropping is the source's map-then-filter, order included. */
  lemma {:induction false} TrimAndDropIsMapFilter(pieces: seq<string>)
    ensures TrimAndDrop(pieces) == Seqs.Filter(TrimAll(pieces), NonBlank)
  {
    if pieces != [] {
      TrimAndDropIsMapFilter(pieces[1..]);
      assert TrimAll(pieces)[1..] == TrimAll(pieces[1..]);
    }
  }

  /** A tag is kept exactly when it is the non-empty trim of some piece. */
  lemma TrimAndDropMembers(pieces: seq<string>, t: string)
    ensures t in TrimAndDrop(pieces) <==> t != "" && exists j :: 0 <= j < |pieces| && Text.Trim(pieces[j]) == t
  {
    TrimAndDropIsMapFilter(pieces);
    var m := TrimAll(pieces);
    var r := TrimAndDrop(pieces);
    if t != "" && exists j :: 0 <= j < |pieces| && Text.Trim(pieces[j]) == t {
      var j :| 0 <= j < |pieces| && Text.Trim(pieces[j]) == t;
      assert m[j] == t;
    }
    if t in r {
      var k :| 0 <= k < |r| && r[k] == t;
      assert r[k] in m;
      var j :| 0 <= j < |m| && m[j] == t;
      assert Text.Trim(pieces[j]) == t;
    }
  }

  /** Pieces without a comma give tags without a comma. */
  lemma {:induction false} TrimAndDropNoComma(pieces: seq<string>)
    requires forall j :: 0 <= j < |pieces| ==> ',' !in pieces[j]
    ensures forall i :: 0 <= i < |TrimAndDrop(pieces)| ==> ',' !in TrimAndDrop(pieces)[i]
  {
    if pieces != [] {
      assert forall j :: 0 <= j < |pieces[1..]| ==> pieces[1..][j] == pieces[j + 1];
      TrimAndDropNoComma(pieces[1..]);
      var rest := TrimAndDrop(pieces[1..]);
      var t := Text.Trim(pieces[0]);
      assert ',' !in t;
      if t != "" {
        var r := TrimAndDrop(pieces);
        assert r == [t] + rest;
        forall i | 0 <= i < |r| ensures ',' !in r[i] {
          if i == 0 {
            assert r[i] == t;
          } else {
            assert r[i] == rest[i - 1];
          }
        }
      }
    }
  }

  /** A tag field as `createFood` reads it: a falsy field gives no tags. */
  function ParseTags(field: string): (r: seq<string>)
    ensures forall i :: 0 <= i < |r| ==> r[i] != "" && Text.IsTrimmed(r[i]) && ',' !in r[i]
    ensures field == "" ==> r == []
  {
    if field == "" then []
    else
      var pieces := Text.Split(field, ',');
      TrimAndDropClean(pieces);
      TrimAndDropNoComma(pieces);
      TrimAndDrop(pieces)
  }

  /** A tag field as `updateFood` reads it: a falsy field keeps the stored tags. */
  function UpdatedTags(field: string, stored: seq<string>): (r: seq<string>)
    ensures field == "" ==> r == stored
    ensures field != "" ==> r == ParseTags(field)
  {
    if field == "" then stored else ParseTags(field)
  }

  /** A field of blanks is truthy, so it replaces the stored tags by none at all. */
  lemma BlankTagsClear(field: string, stored: seq<string>)
    requires field != "" && Text.AllSpace(field)
    ensures UpdatedTags(field, stored) == []
  {
    forall k | 0 <= k < |field| ensures field[k] != ',' {
      assert Text.IsSpace(field[k]);
    }
    Text.SplitWithoutSeparator(field, ',');
    assert [field][1..] == [];
  }

  /** A blank after a comma never reaches a tag. */
  lemma TrimAndDropLeadingSpace(s: string)
    ensures TrimAndDrop(Text.Split([' '] + s, ',')) == TrimAndDrop(Text.Split(s, ','))
  {
    var pieces := Text.Split(s, ',');
    Text.SplitLeadingChar(' ', s, ',');
    var spaced := [[' '] + pieces[0]] + pieces[1..];
    assert spaced[0] == [' '] + pieces[0] && spaced[1..] == pieces[1..];
    Text.TrimLeadingSpace(' ', pieces[0]);
  }

  /** A clean first tag followed by ", " is parsed off in front of the rest. */
  lemma ParseTagsCons(t: string, joined: string)
    requires t != "" && Text.IsTrimmed(t) && ',' !in t
    ensures ParseTags(t + ", " + joined) == [t] + ParseTags(joined)
  {
    assert t + ", " + joined == t + [','] + ([' '] + joined);
    Text.SplitAtSeparator(t, ',', [' '] + joined);
    var rest := Text.Split([' '] + joined, ',');
    assert ([t] + rest)[0] == t && ([t] + rest)[1..] == rest;
    TrimAndDropLeadingSpace(joined);
    assert ParseTags(joined) == TrimAndDrop(Text.Split(joined, ','));
  }

  lemma ParseTagsSingle(t: string)
    requires t != "" && Text.IsTrimmed(t) && ',' !in t
    ensures ParseTags(t) == [t]
  {
    Text.SplitWithoutSeparator(t, ',');
    assert [t][1..] == [];
  }

  /** One clean tag in front of tags that round-trip also round-trips. */
  lemma TagsRoundTripStep(t: string, rest: seq<string>)
    requires t != "" && Text.IsTrimmed(t) && ',' !in t && rest != []
    requires ParseTags(Text.Join(rest, ", ")) == rest
    ensures ParseTags(Text.Join([t] + rest, ", ")) == [t] + rest
  {
    var joined := Text.Join(rest, ", ");
    assert ([t] + rest)[1..] == rest;
    assert Text.Join([t] + rest, ", ") == t + ", " + joined;
    ParseTagsCons(t, joined);
  }

  /** Writing the tags of a food joined by ", " and parsing them back gives the same tags. */
  lemma {:induction false} TagsRoundTrip(tags: seq<string>)
    requires forall i :: 0 <= i < |tags| ==> tags[i] != "" && Text.IsTrimmed(tags[i]) && ',' !in tags[i]
    ensures ParseTags(Text.Join(tags, ", ")) == tags
  {
    if |tags| == 1 {
      ParseTagsSingle(tags[0]);
    } else if |tags| > 1 {
      var rest := tags[1..];
      assert forall i :: 0 <= i < |rest| ==> rest[i] == tags[i + 1];
      TagsRoundTrip(rest);
      TagsRoundTripStep(tags[0], rest);
      assert tags == [tags[0]] + rest;
    }
  }

  // ---------------------------------------------------------------------
  // updateFood's field fallback

  /** The multipart body of an update; "" and `None` stand for an absent field. */
  datatype FoodUpdate = FoodUpdate(
    name: string,
    description: string,
    category: string,
    tags: string,
    price: Option<int>,
    availableQuantity: Option<int>)

  /** `submitted || stored` on text: the empty string is falsy. */
  function OrText(submitted: string, stored: string): (r: string)
    ensures r == submitted || r == stored
    ensures r == stored <==> submitted == "" || submitted == stored
  {
    if submitted != "" then submitted else stored
  }

  /** `submitted || stored` on a number: an absent field and 0 are falsy. */
  function OrNumber(submitted: Option<int>, stored: int): (r: int)
    ensures r != stored ==> submitted == Some(r)
    ensures r == stored <==> submitted.None? || submitted.value == 0 || submitted.value == stored
  {
    if submitted.Some? && submitted.value != 0 then submitted.value else stored
  }

  /**
   * The document `findByIdAndUpdate` writes: every falsy field keeps the stored
   * value, the video is the new upload's url when a file came, and the
   * counters and the owner are not touched. An upload whose url is empty never
   * reaches this document: `UpdateFood` answers 500 for it.
   */
  function Updated(stored: Food, body: FoodUpdate, upload: Option<string>): (r: Food)
    ensures r.likeCount == stored.likeCount && r.saveCount == stored.saveCount
    ensures r.partner == stored.partner
    ensures upload.None? ==> r.video == stored.video
  {
    stored.(
      name := OrText(body.name, stored.name),
      description := OrText(body.description, stored.description),
      category := OrText(body.category, stored.category),
      tags := UpdatedTags(body.tags, stored.tags),
      price := OrNumber(body.price, stored.price),
      availableQuantity := OrNumber(body.availableQuantity, stored.availableQuantity),
      video := if upload.Some? then upload.value else stored.video)
  }

  /** An update that submits nothing truthy and no file leaves the food as it was. */
  lemma EmptyUpdateKeepsFood(stored: Food, body: FoodUpdate)
    requires body.name == "" && body.description == "" && body.category == "" && body.tags == ""
    requires body.price.None? || body.price == Some(0)
    requires body.availableQuantity.None? || body.availableQuantity == Some(0)
    ensures Updated(stored, body, None) == stored
  {
  }

  /** Stock (and price) can become 0 through an update only if it already was 0. */
  lemma UpdateCannotZeroStock(stored: Food, body: FoodUpdate, upload: Option<string>)
    ensures Updated(stored, body, upload).availableQuantity == 0 ==> stored.availableQuantity == 0
    ensures Updated(stored, body, upload).price == 0 ==> stored.price == 0
  {
  }

  /** Every truthy submitted field is what the updated food holds. */
  lemma TruthyFieldsTaken(stored: Food, body: FoodUpdate, upload: Option<string>)
    ensures var r := Updated(stored, body, upload);
      && (body.name != "" ==> r.name == body.name)
      && (body.description != "" ==> r.description == body.description)
      && (body.category != "" ==> r.category == body.category)
      && (body.tags != "" ==> r.tags == ParseTags(body.tags))
      && (body.price.Some? && body.price.value != 0 ==> r.price == body.price.value)
      && (body.availableQuantity.Some? && body.availableQuantity.value != 0 ==>
            r.availableQuantity == body.availableQuantity.value)
      && (upload.Some? ==> r.video == upload.value)
  {
  }

  // ---------------------------------------------------------------------
  // The collections and the state-changing handlers

  datatype Comment = Comment(user: UserId, food: FoodId, text: string)

  /** What a toggle did: 201 when a record was created, 200 when one was deleted. */
  datatype ToggleOutcome = Added | Removed {
    function Status(): int {
      if Added? then 201 else 200
    }
  }

  /** The counter step a toggle of `x` applies: -1 when `x` is deleted, +1 when created. */
  function Delta(rs: seq<Record>, x: Record): int {
    if x in rs then -1 else 1
  }

  /** `$inc: { likeCount: d }` on the food `id`; a missing food is left alone. */
  function BumpLikes(foods: map<FoodId, Food>, id: FoodId, d: int): (r: map<FoodId, Food>)
    ensures r.Keys == foods.Keys
    ensures forall f :: f in foods && f != id ==> r[f] == foods[f]
    ensures id in foods ==> r[id] == foods[id].(likeCount := foods[id].likeCount + d)
  {
    if id in foods then foods[id := foods[id].(likeCount := foods[id].likeCount + d)] else foods
  }

  /** `$inc: { saveCount: d }` on the food `id`; a missing food is left alone. */
  function BumpSaves(foods: map<FoodId, Food>, id: FoodId, d: int): (r: map<FoodId, Food>)
    ensures r.Keys == foods.Keys
    ensures forall f :: f in foods && f != id ==> r[f] == foods[f]
    ensures id in foods ==> r[id] == foods[id].(saveCount := foods[id].saveCount + d)
  {
    if id in foods then foods[id := foods[id].(saveCount := foods[id].saveCount + d)] else foods
  }

  /** Liking twice brings back the like records and every food's counters. */
  lemma LikeTwiceRestores(foods: map<FoodId, Food>, likes: seq<Record>, x: Record)
    requires NoDup(likes)
    ensures var likes1 := Toggle(likes, x);
      && multiset(Toggle(likes1, x)) == multiset(likes)
      && BumpLikes(BumpLikes(foods, x.target, Delta(likes, x)), x.target, Delta(likes1, x)) == foods
  {
    ToggleTwice(likes, x);
    ToggleNoDup(likes, x);
  }

  /** Saving twice brings back the save records and every food's counters. */
  lemma SaveTwiceRestores(foods: map<FoodId, Food>, saves: seq<Record>, x: Record)
    requires NoDup(saves)
    ensures var saves1 := Toggle(saves, x);
      && multiset(Toggle(saves1, x)) == multiset(saves)
      && BumpSaves(BumpSaves(foods, x.target, Delta(saves, x)), x.target, Delta(saves1, x)) == foods
  {
    ToggleTwice(saves, x);
    ToggleNoDup(saves, x);
  }

  /**
   * The food, like, save and comment collections. Like and save records are
   * `Record(user, food)`.
   */
  class FoodStore {
    var foods: map<FoodId, Food>
    var likes: seq<Record>
    var saves: seq<Record>
    var comments: seq<Comment>

    /** No record twice, and every food's counters count its like and save records. */
    ghost predicate Valid()
      reads this
    {
      && NoDup(likes) && NoDup(saves)
      && forall f :: f in foods ==>
           foods[f].likeCount == CountFor(likes, f) && foods[f].saveCount == CountFor(saves, f)
    }

    constructor ()
      ensures Valid()
      ensures foods == map[] && likes == [] && saves == [] && comments == []
    {
      foods := map[];
      likes := [];
      saves := [];
      comments := [];
    }

    /** `likedFoodItems`: delete the actor's like of the food if there is one, create it otherwise. */
    method ToggleLike(foodId: FoodId, actor: UserId) returns (r: Result<ToggleOutcome>)
      requires Valid()
      modifies this
      ensures Valid()
      ensures saves == old(saves) && comments == old(comments)
      ensures foodId == "" || actor == "" ==>
        r == Err(BadRequest(FoodAndUserRequired)) && foods == old(foods) && likes == old(likes)
      ensures foodId != "" && actor != "" ==>
        var x := Record(actor, foodId);
        && r == Ok(if x in old(likes) then Removed else Added)
        && likes == Toggle(old(likes), x)
        && foods == BumpLikes(old(foods), foodId, Delta(old(likes), x))
    {
      if foodId == "" || actor == "" {
        return Err(BadRequest(FoodAndUserRequired));
      }
      var x := Record(actor, foodId);
      forall f | f in foods ensures CountFor(Toggle(likes, x), f) == CountFor(likes, f) + (if f == foodId then Delta(likes, x) else 0) {
        ToggleCount(likes, x, f);
      }
      ToggleNoDup(likes, x);
      if x in likes {
        r := Ok(Removed);
      } else {
        r := Ok(Added);
      }
      foods := BumpLikes(foods, foodId, Delta(likes, x));
      likes := Toggle(likes, x);
    }

    /** `savedFoodItems`: the same toggle on saves and `saveCount`. */
    method ToggleSave(foodId: FoodId, actor: UserId) returns (r: Result<ToggleOutcome>)
      requires Valid()
      modifies this
      ensures Valid()
      ensures likes == old(likes) && comments == old(comments)
      ensures foodId == "" || actor == "" ==>
        r == Err(BadRequest(FoodAndUserRequired)) && foods == old(foods) && saves == old(saves)
      ensures foodId != "" && actor != "" ==>
        var x := Record(actor, foodId);
        && r == Ok(if x in old(saves) then Removed else Added)
        && saves == Toggle(old(saves), x)
        && foods == BumpSaves(old(foods), foodId, Delta(old(saves), x))
    {
      if foodId == "" || actor == "" {
        return Err(BadRequest(FoodAndUserRequired));
      }
      var x := Record(actor, foodId);
      forall f | f in foods ensures CountFor(Toggle(saves, x), f) == CountFor(saves, f) + (if f == foodId then Delta(saves, x) else 0) {
        ToggleCount(saves, x, f);
      }
      ToggleNoDup(saves, x);
      if x in saves {
        r := Ok(Removed);
      } else {
        r := Ok(Added);
      }
      foods := BumpSaves(foods, foodId, Delta(saves, x));
      saves := Toggle(saves, x);
    }

    /**
     * `createFood` under the fresh ObjectId `id`. Without an uploaded file the
     * handler dereferences a null upload result, and without a name or video
     * url the schema's `required` check fails; both answer 500.
     */
    method CreateFood(id: FoodId, partner: PartnerId, name: string, description: string, category: string,
                      tagsField: string, price: int, availableQuantity: int, upload: Option<string>)
      returns (r: Result<Food>)
      requires Valid()
      requires id !in foods && CountFor(likes, id) == 0 && CountFor(saves, id) == 0
      modifies this
      ensures Valid()
      ensures likes == old(likes) && saves == old(saves) && comments == old(comments)
      ensures upload.None? || upload.value == "" || name == "" ==> r == Err(InternalError) && foods == old(foods)
      ensures upload.Some? && upload.value != "" && name != "" ==>
        && r == Ok(Food(name, description, category, ParseTags(tagsField), price, availableQuantity, 0, 0, upload.value, partner))
        && foods == old(foods)[id := r.value]
    {
      if upload.None? || upload.value == "" || name == "" {
        return Err(InternalError);
      }
      var food := Food(name, description, category, ParseTags(tagsField), price, availableQuantity, 0, 0, upload.value, partner);
      foods := foods[id := food];
      r := Ok(food);
    }

    /**
     * `updateFood`: 404 for an unknown food, 403 for another partner's. An
     * upload result with an empty url makes `url || result` the result object,
     * which the string `video` field cannot hold, so the write fails with 500.
     * Otherwise the food becomes the fallback update.
     */
    method UpdateFood(foodId: FoodId, partner: PartnerId, body: FoodUpdate, upload: Option<string>)
      returns (r: Result<Food>)
      requires Valid()
      modifies this
      ensures Valid()
      ensures likes == old(likes) && saves == old(saves) && comments == old(comments)
      ensures foodId !in old(foods) ==> r == Err(NotFound(FoodItemNotFound)) && foods == old(foods)
      ensures foodId in old(foods) && old(foods)[foodId].partner != partner ==>
        r == Err(Forbidden(NotAuthorizedToUpdate)) && foods == old(foods)
      ensures foodId in old(foods) && old(foods)[foodId].partner == partner && upload == Some("") ==>
        r == Err(InternalError) && foods == old(foods)
      ensures foodId in old(foods) && old(foods)[foodId].partner == partner && upload != Some("") ==>
        && r == Ok(Updated(old(foods)[foodId], body, upload))
        && foods == old(foods)[foodId := r.value]
    {
      if foodId !in foods {
        return Err(NotFound(FoodItemNotFound));
      }
      if foods[foodId].partner != partner {
        return Err(Forbidden(NotAuthorizedToUpdate));
      }
      if upload == Some("") {
        return Err(InternalError);
      }
      var food := Updated(foods[foodId], body, upload);
      foods := foods[foodId := food];
      r := Ok(food);
    }

    /**
     * `deleteFood`: 404 for an unknown food, 403 for another partner's, else
     * the food goes together with every like, save and comment naming it.
     */
    method DeleteFood(foodId: FoodId, partner: PartnerId) returns (r: Result<()>)
      requires Valid()
      modifies this
      ensures Valid()
      ensures foodId !in old(foods) ==> r == Err(NotFound(FoodItemNotFound)) && unchanged(this)
      ensures foodId in old(foods) && old(foods)[foodId].partner != partner ==>
        r == Err(Forbidden(NotAuthorizedToDelete)) && unchanged(this)
      ensures foodId in old(foods) && old(foods)[foodId].partner == partner ==>
        && r == Ok(())
        && foods == old(foods) - {foodId}
        && likes == RemoveTarget(old(likes), foodId)
        && saves == RemoveTarget(old(saves), foodId)
        && comments == Seqs.Filter(old(comments), (c: Comment) => c.food != foodId)
    {
      if foodId !in foods {
        return Err(NotFound(FoodItemNotFound));
      }
      if foods[foodId].partner != partner {
        return Err(Forbidden(NotAuthorizedToDelete));
      }
      forall f | f in foods && f != foodId
        ensures CountFor(RemoveTarget(likes, foodId), f) == CountFor(likes, f)
        ensures CountFor(RemoveTarget(saves, foodId), f) == CountFor(saves, f)
      {
        CountRemoveTarget(likes, foodId, f);
        CountRemoveTarget(saves, foodId, f);
      }
      NoDupRemoveTarget(likes, foodId);
      NoDupRemoveTarget(saves, foodId);
      likes := RemoveTarget(likes, foodId);
      saves := RemoveTarget(saves, foodId);
      comments := Seqs.Filter(comments, (c: Comment) => c.food != foodId);
      foods := foods - {foodId};
      r := Ok(());
    }
  }

  // ---------------------------------------------------------------------
  // getRelatedFoods

  /** A document of the food collection, in the collection's natural order. */
  datatype Entry = Entry(id: FoodId, food: Food)

  predicate DistinctIds(es: seq<Entry>) {
    forall i, j :: 0 <= i < j < |es| ==> es[i].id != es[j].id
  }

  /** `findById`: the first document with that id. */
  function FindEntry(collection: seq<Entry>, id: FoodId): (r: Option<Entry>)
    ensures r.Some? <==> exists i :: 0 <= i < |collection| && collection[i].id == id
    ensures r.Some? ==> r.value in collection && r.value.id == id
  {
    if collection == [] then None
    else if collection[0].id == id then Some(collection[0])
    else
      var r := FindEntry(collection[1..], id);
      assert forall i :: 1 <= i < |collection| ==> collection[i] == collection[1..][i - 1];
      r
  }

  /** `tags: { $in: tags }`: the candidate has one of the given tags. */
  predicate SharesTag(candidate: Food, tags: seq<string>) {
    exists i :: 0 <= i < |candidate.tags| && candidate.tags[i] in tags
  }

  function SharesTagWith(tags: seq<string>): Entry -> bool {
    (e: Entry) => SharesTag(e.food, tags)
  }

  /** `.sort({ likeCount: -1, saveCount: -1 })`. */
  predicate MorePopular(a: Entry, b: Entry) {
    a.food.likeCount > b.food.likeCount || (a.food.likeCount == b.food.likeCount && a.food.saveCount >= b.food.saveCount)
  }

  lemma MorePopularIsTotalPreorder()
    ensures Seqs.TotalPreorder(MorePopular)
  {
  }

  /** `.limit(n)` and `.slice(0, n)`: the first `n` elements. */
  function Take<T>(s: seq<T>, n: nat): (r: seq<T>)
    ensures |r| <= n && |r| <= |s| && r == s[..|r|]
    ensures |s| <= n ==> r == s
    ensures |s| > n ==> |r| == n
  {
    if |s| <= n then s else s[..n]
  }

  /** A query result: the matching entries, most popular first, at most `limit`. */
  function Query(collection: seq<Entry>, matches: Entry -> bool, limit: nat): (r: seq<Entry>)
    ensures |r| <= limit
    ensures |r| == if limit < |Seqs.Filter(collection, matches)| then limit else |Seqs.Filter(collection, matches)|
    ensures forall i :: 0 <= i < |r| ==> r[i] in collection && matches(r[i])
    ensures Seqs.SortedBy(r, MorePopular)
    ensures forall e :: e in collection && matches(e) && e !in r ==> forall i :: 0 <= i < |r| ==> MorePopular(r[i], e)
    ensures multiset(r) <= multiset(Seqs.Filter(collection, matches))
  {
    QueryFacts(collection, matches, limit);
    QueryTop(collection, matches, limit);
    QueryShrinks(collection, matches, limit);
    Take(Seqs.SortBy(Seqs.Filter(collection, matches), MorePopular), limit)
  }

  /** A matching entry left out by the limit is no more popular than any entry kept. */
  lemma QueryTop(collection: seq<Entry>, matches: Entry -> bool, limit: nat)
    ensures var r := Take(Seqs.SortBy(Seqs.Filter(collection, matches), MorePopular), limit);
      forall e :: e in collection && matches(e) && e !in r ==> forall i :: 0 <= i < |r| ==> MorePopular(r[i], e)
  {
    var found := Seqs.Filter(collection, matches);
    var sorted := Seqs.SortBy(found, MorePopular);
    MorePopularIsTotalPreorder();
    Seqs.SortBySorted(found, MorePopular);
    Seqs.SortByMembers(found, MorePopular);
    var r := Take(sorted, limit);
    assert forall m :: 0 <= m < |r| ==> r[m] == sorted[m];
    forall e | e in collection && matches(e) && e !in r ensures forall i :: 0 <= i < |r| ==> MorePopular(r[i], e) {
      var j :| 0 <= j < |collection| && collection[j] == e;
      assert e in found;
      var k :| 0 <= k < |sorted| && sorted[k] == e;
      assert k >= |r|;
    }
  }

  /** Each matching document comes back at most as often as it is stored. */
  lemma QueryShrinks(collection: seq<Entry>, matches: Entry -> bool, limit: nat)
    ensures multiset(Take(Seqs.SortBy(Seqs.Filter(collection, matches), MorePopular), limit)) <= multiset(Seqs.Filter(collection, matches))
  {
    TakeShrinks(Seqs.SortBy(Seqs.Filter(collection, matches), MorePopular), limit);
  }

  lemma TakeShrinks<T>(s: seq<T>, n: nat)
    ensures multiset(Take(s, n)) <= multiset(s)
  {
    var r := Take(s, n);
    assert s == r + s[|r|..];
    assert multiset(s) == multiset(r) + multiset(s[|r|..]);
  }

  lemma QueryFacts(collection: seq<Entry>, matches: Entry -> bool, limit: nat)
    ensures var r := Take(Seqs.SortBy(Seqs.Filter(collection, matches), MorePopular), limit);
      && (forall i :: 0 <= i < |r| ==> r[i] in collection && matches(r[i]))
      && Seqs.SortedBy(r, MorePopular)
  {
    var found := Seqs.Filter(collection, matches);
    var sorted := Seqs.SortBy(found, MorePopular);
    MorePopularIsTotalPreorder();
    Seqs.SortBySorted(found, MorePopular);
    Seqs.SortByMembers(found, MorePopular);
    var r := Take(sorted, limit);
    forall i | 0 <= i < |r| ensures r[i] in collection && matches(r[i]) {
      assert r[i] == sorted[i];
      assert r[i] in found;
      var k :| 0 <= k < |found| && found[k] == r[i];
    }
  }

  /** The first query: other foods sharing a tag, at most 8. */
  function TagMatches(collection: seq<Entry>, id: FoodId, food: Food): seq<Entry> {
    if |food.tags| > 0 then Query(collection, TagMatcher(id, food), 8) else []
  }

  /** `{ _id: { $ne: foodId }, tags: { $in: food.tags } }`. */
  function TagMatcher(id: FoodId, food: Food): Entry -> bool {
    (e: Entry) => e.id != id && SharesTag(e.food, food.tags)
  }

  /** The second query: other foods of the same category sharing no tag, at most `limit`. */
  function CategoryMatches(collection: seq<Entry>, id: FoodId, food: Food, limit: nat): seq<Entry> {
    Query(collection, CategoryMatcher(id, food), limit)
  }

  /** `{ _id: { $ne: foodId }, category: food.category, tags: { $nin: food.tags } }`. */
  function CategoryMatcher(id: FoodId, food: Food): Entry -> bool {
    (e: Entry) => e.id != id && e.food.category == food.category && !SharesTag(e.food, food.tags)
  }

  /**
   * The tag matches, then (when fewer than 6 and a category is set) the
   * category matches: never more than the 8 tag matches, and never more than
   * 6 once category matches are added.
   */
  function Candidates(collection: seq<Entry>, id: FoodId, food: Food): (r: seq<Entry>)
    ensures |r| <= 8
    ensures |TagMatches(collection, id, food)| < 6 && food.category != "" ==> |r| <= 6
  {
    var tagged := TagMatches(collection, id, food);
    if |tagged| < 6 && food.category != "" then tagged + CategoryMatches(collection, id, food, 6 - |tagged|)
    else tagged
  }

  /**
   * Every candidate is another food of the collection sharing a tag or the
   * category; tag matches come first; with 6 tag matches or no category
   * there are only tag matches.
   */
  lemma CandidatesShape(collection: seq<Entry>, id: FoodId, food: Food)
    ensures var r := Candidates(collection, id, food);
      && (forall i :: 0 <= i < |r| ==>
            (r[i] in collection && r[i].id != id &&
             (SharesTag(r[i].food, food.tags) || (food.category != "" && r[i].food.category == food.category))))
      && Seqs.PartitionedBy(r, SharesTagWith(food.tags))
      && (|TagMatches(collection, id, food)| >= 6 || food.category == "" ==>
            forall i :: 0 <= i < |r| ==> SharesTag(r[i].food, food.tags))
  {
    CandidatesMembers(collection, id, food);
    CandidatesPartitioned(collection, id, food);
    CandidatesTagOnly(collection, id, food);
  }

  lemma CandidatesMembers(collection: seq<Entry>, id: FoodId, food: Food)
    ensures var r := Candidates(collection, id, food);
      forall i :: 0 <= i < |r| ==>
        (r[i] in collection && r[i].id != id &&
         (SharesTag(r[i].food, food.tags) || (food.category != "" && r[i].food.category == food.category)))
  {
    if |TagMatches(collection, id, food)| < 6 && food.category != "" {
      CandidatesFacts(collection, id, food);
    } else {
      TagMatchesFacts(collection, id, food);
    }
  }

  lemma CandidatesPartitioned(collection: seq<Entry>, id: FoodId, food: Food)
    ensures Seqs.PartitionedBy(Candidates(collection, id, food), SharesTagWith(food.tags))
  {
    if |TagMatches(collection, id, food)| < 6 && food.category != "" {
      CandidatesFacts(collection, id, food);
    } else {
      TagMatchesFacts(collection, id, food);
    }
  }

  lemma CandidatesTagOnly(collection: seq<Entry>, id: FoodId, food: Food)
    ensures var r := Candidates(collection, id, food);
      |TagMatches(collection, id, food)| >= 6 || food.category == "" ==>
        forall i :: 0 <= i < |r| ==> SharesTag(r[i].food, food.tags)
  {
    if !(|TagMatches(collection, id, food)| < 6 && food.category != "") {
      TagMatchesFacts(collection, id, food);
    }
  }

  /** Every tag match is another food of the collection sharing a tag. */
  lemma TagMatchesFacts(collection: seq<Entry>, id: FoodId, food: Food)
    ensures var tagged := TagMatches(collection, id, food);
      && (forall i :: 0 <= i < |tagged| ==> tagged[i] in collection && tagged[i].id != id && SharesTag(tagged[i].food, food.tags))
      && Seqs.PartitionedBy(tagged, SharesTagWith(food.tags))
  {
    var tagged := TagMatches(collection, id, food);
    var p := SharesTagWith(food.tags);
    forall i | 0 <= i < |tagged|
      ensures tagged[i] in collection && tagged[i].id != id && SharesTag(tagged[i].food, food.tags) && p(tagged[i])
    {
    }
  }

  /** Every category match is another food of the collection with the category and no shared tag. */
  lemma CategoryMatchesFacts(collection: seq<Entry>, id: FoodId, food: Food, limit: nat)
    ensures var byCategory := CategoryMatches(collection, id, food, limit);
      forall i :: 0 <= i < |byCategory| ==>
        byCategory[i] in collection && byCategory[i].id != id && byCategory[i].food.category == food.category &&
        !SharesTag(byCategory[i].food, food.tags)
  {
  }

  lemma CandidatesFacts(collection: seq<Entry>, id: FoodId, food: Food)
    requires |TagMatches(collection, id, food)| < 6 && food.category != ""
    ensures var tagged := TagMatches(collection, id, food);
      var r := tagged + CategoryMatches(collection, id, food, 6 - |tagged|);
      && (forall i :: 0 <= i < |r| ==>
            (r[i] in collection && r[i].id != id &&
             (SharesTag(r[i].food, food.tags) || r[i].food.category == food.category)))
      && Seqs.PartitionedBy(r, SharesTagWith(food.tags))
  {
    var tagged := TagMatches(collection, id, food);
    var byCategory := CategoryMatches(collection, id, food, 6 - |tagged|);
    var r := tagged + byCategory;
    var p := SharesTagWith(food.tags);
    TagMatchesFacts(collection, id, food);
    CategoryMatchesFacts(collection, id, food, 6 - |tagged|);
    forall i | 0 <= i < |r|
      ensures r[i] in collection && r[i].id != id && (SharesTag(r[i].food, food.tags) || r[i].food.category == food.category)
      ensures i < |tagged| <==> p(r[i])
    {
      if i < |tagged| {
        assert r[i] == tagged[i];
      } else {
        assert r[i] == byCategory[i - |tagged|];
      }
    }
  }

  /** `filter((f, i, self) => i === self.findIndex(...))`: keep the first entry of each id not yet `seen`. */
  function DedupeFrom(es: seq<Entry>, seen: set<FoodId>): (r: seq<Entry>)
    ensures forall i :: 0 <= i < |r| ==> r[i].id !in seen
    ensures DistinctIds(r)
    ensures Seqs.IsSubsequence(r, es)
    ensures forall k :: 0 <= k < |es| && es[k].id !in seen && (forall m :: 0 <= m < k ==> es[m].id != es[k].id) ==> es[k] in r
  {
    if es == [] then []
    else if es[0].id in seen then DedupeFrom(es[1..], seen)
    else [es[0]] + DedupeFrom(es[1..], seen + {es[0].id})
  }

  /** `candidate` shares a tag with `food`, or `food` has a category and `candidate` is in it. */
  predicate Related(candidate: Food, food: Food) {
    SharesTag(candidate, food.tags) || (food.category != "" && candidate.category == food.category)
  }

  /** There are candidates exactly when some other food shares a tag or the category. */
  lemma CandidatesNonEmpty(collection: seq<Entry>, id: FoodId, food: Food)
    ensures Candidates(collection, id, food) != [] <==> exists e :: e in collection && e.id != id && Related(e.food, food)
  {
    var c := Candidates(collection, id, food);
    var tagged := TagMatches(collection, id, food);
    CandidatesShape(collection, id, food);
    if c != [] {
      assert c[0] in collection && c[0].id != id && Related(c[0].food, food);
    }
    if exists e :: e in collection && e.id != id && Related(e.food, food) {
      var e :| e in collection && e.id != id && Related(e.food, food);
      if SharesTag(e.food, food.tags) {
        var i :| 0 <= i < |e.food.tags| && e.food.tags[i] in food.tags;
        Seqs.FilterNonEmpty(collection, TagMatcher(id, food), e);
        assert tagged != [];
      } else if tagged == [] {
        Seqs.FilterNonEmpty(collection, CategoryMatcher(id, food), e);
        assert c == CategoryMatches(collection, id, food, 6);
      }
    }
  }

  /** De-duplication keeps the list non-empty exactly when it was. */
  lemma DedupeNonEmpty(es: seq<Entry>)
    ensures DedupeFrom(es, {}) != [] <==> es != []
  {
    if es != [] {
      DedupeKeepsIds(es, {}, 0);
    }
  }

  /** Every id of the input survives the de-duplication. */
  lemma {:induction false} DedupeKeepsIds(es: seq<Entry>, seen: set<FoodId>, k: nat)
    requires k < |es| && es[k].id !in seen
    ensures exists j :: 0 <= j < |DedupeFrom(es, seen)| && DedupeFrom(es, seen)[j].id == es[k].id
  {
    if exists m :: 0 <= m < k && es[m].id == es[k].id {
      var m :| 0 <= m < k && es[m].id == es[k].id;
      DedupeKeepsIds(es, seen, m);
    } else {
      var r := DedupeFrom(es, seen);
      assert es[k] in r;
      var j :| 0 <= j < |r| && r[j] == es[k];
    }
  }

  /**
   * `getRelatedFoods`: 404 for an unknown food; otherwise at most 6 other
   * foods with distinct ids, each sharing a tag or (failing that) the
   * category, with every tag match listed before every category match.
   */
  function RelatedFoods(collection: seq<Entry>, id: FoodId): (r: Result<seq<Entry>>)
    ensures r.Err? <==> FindEntry(collection, id).None?
    ensures r.Err? ==> r.error == NotFound(FoodNotFound)
    ensures r.Ok? ==>
      var food := FindEntry(collection, id).value.food;
      && |r.value| <= 6
      && DistinctIds(r.value)
      && (forall i :: 0 <= i < |r.value| ==>
            (r.value[i] in collection && r.value[i].id != id &&
             (SharesTag(r.value[i].food, food.tags) || (food.category != "" && r.value[i].food.category == food.category))))
      && Seqs.PartitionedBy(r.value, SharesTagWith(food.tags))
      && (|TagMatches(collection, id, food)| >= 6 || food.category == "" ==>
            forall i :: 0 <= i < |r.value| ==> SharesTag(r.value[i].food, food.tags))
    ensures r.Ok? ==>
      var food := FindEntry(collection, id).value.food;
      var unique := DedupeFrom(Candidates(collection, id, food), {});
      && |r.value| == (if |unique| < 6 then |unique| else 6)
      && (r.value != [] <==> exists e :: e in collection && e.id != id && Related(e.food, food))
  {
    match FindEntry(collection, id)
    case None => Err(NotFound(FoodNotFound))
    case Some(e) =>
      CandidatesShape(collection, id, e.food);
      CandidatesNonEmpty(collection, id, e.food);
      DedupeNonEmpty(Candidates(collection, id, e.food));
      RelatedFacts(Candidates(collection, id, e.food), SharesTagWith(e.food.tags));
      Ok(Take(DedupeFrom(Candidates(collection, id, e.food), {}), 6))
  }

  /** De-duplicating and keeping the first 6 keeps membership, order classes and distinctness. */
  lemma RelatedFacts(related: seq<Entry>, p: Entry -> bool)
    ensures var r := Take(DedupeFrom(related, {}), 6);
      && DistinctIds(r)
      && (forall i :: 0 <= i < |r| ==> r[i] in related)
      && (Seqs.PartitionedBy(related, p) ==> Seqs.PartitionedBy(r, p))
  {
    var unique := DedupeFrom(related, {});
    Seqs.SubsequenceMembers(unique, related);
    if Seqs.PartitionedBy(related, p) {
      Seqs.SubsequencePartitioned(unique, related, p);
    }
    var r := Take(unique, 6);
    assert forall i :: 0 <= i < |r| ==> r[i] == unique[i];
  }
}
