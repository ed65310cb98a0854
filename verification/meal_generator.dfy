/** The sample-meal generator of the client (`utils/mealGenerator.ts`): the
    price tier a meal name earns, and `generateDummyMeals`, which builds
    meals with distinct random ids.

    Every `Math.random()` the generator makes is an input: one `MealDraw`
    per meal, holding the values the source's draws produce. Prices are
    integer cents; all three tier prices have two significant decimals, so
    `$` and the cents rendered with two decimals is the text the source
    shows. */
module MealGenerator {
  import opened Wrappers
  import opened Strings
  import opened Seqs

  const MealNames := ["Grilled Salmon Bowl", "Quinoa Buddha Bowl", "Chicken Fajita Bowl", "Mediterranean Plate",
                      "Vegetable Curry", "Steak and Sweet Potato", "Tofu Stir-Fry", "Pesto Pasta Primavera",
                      "Asian Sesame Bowl", "Southwest Chipotle Bowl"]
  const Descriptions := ["Fresh and flavorful combination with seasonal vegetables",
                         "Nutrient-rich blend of whole grains and proteins",
                         "Spicy and satisfying mix of proteins and vegetables",
                         "Classic Mediterranean flavors with a modern twist",
                         "Bold and aromatic combination of spices and vegetables"]
  const Tags := ["High Protein", "Vegetarian", "Vegan", "Gluten Free", "Low Carb", "Keto", "Dairy Free",
                 "Mediterranean", "Spicy", "Low Calorie"]
  const Categories := ["popular", "new", "bestseller", "vegetarian", "high-protein"]
  const Badges := ["Popular", "New", "Bestseller", "Limited Time"]
  const ImageUrls := ["https://images.unsplash.com/photo-1546069901-ba9599a7e63c",
                      "https://images.unsplash.com/photo-1512621776951-a57141f2eefd",
                      "https://images.unsplash.com/photo-1473093295043-cdd812d0e601",
                      "https://images.unsplash.com/photo-1467003909585-2f8a72700288",
                      "https://images.unsplash.com/photo-1504674900247-0877df9cc836"]

  /** The largest id the generator draws; ids run from 1. */
  const MaxId := 10000

  /** The three price tiers, cheapest first. */
  datatype PriceTier = Basic | Premium | Signature

  /** A tier's price in cents and the tag naming it. */
  function TierPrice(t: PriceTier): nat {
    match t
    case Basic => 1199
    case Premium => 1499
    case Signature => 1799
  }

  function TierLabel(t: PriceTier): string {
    match t
    case Basic => "Basic"
    case Premium => "Premium"
    case Signature => "Signature"
  }

  /** The tiers' rank, cheapest first. */
  function Rank(t: PriceTier): nat {
    match t
    case Basic => 0
    case Premium => 1
    case Signature => 2
  }

  /** A dearer tier costs more. */
  lemma PriceFollowsRank(a: PriceTier, b: PriceTier)
    ensures Rank(a) < Rank(b) <==> TierPrice(a) < TierPrice(b)
  {
  }

  /** Whether the lower-cased name contains one of the words. */
  predicate NameMentions(name: string, words: seq<string>) {
    exists k :: 0 <= k < |words| && Contains(Lower(name), words[k])
  }

  const SignatureWords := ["steak", "salmon"]
  const PremiumWords := ["chicken", "bowl"]

  /** `determinePriceTier`: steak or salmon makes a signature meal; else
      chicken or bowl a premium one; anything else is basic. Case is
      ignored. */
  function DeterminePriceTier(name: string): (t: PriceTier)
    ensures t == Signature <==> NameMentions(name, SignatureWords)
    ensures t == Premium <==> !NameMentions(name, SignatureWords) && NameMentions(name, PremiumWords)
    ensures t == Basic <==> !NameMentions(name, SignatureWords) && !NameMentions(name, PremiumWords)
  {
    if NameMentions(name, SignatureWords) then Signature
    else if NameMentions(name, PremiumWords) then Premium
    else Basic
  }

  /** Words after a name never lower its tier. */
  lemma {:induction false} LongerNameNeverCheaper(name: string, more: string)
    ensures Rank(DeterminePriceTier(name + more)) >= Rank(DeterminePriceTier(name))
  {
    LowerConcat(name, more);
    if NameMentions(name, SignatureWords) {
      var k :| 0 <= k < |SignatureWords| && Contains(Lower(name), SignatureWords[k]);
      ContainsExtended(Lower(name), Lower(more), SignatureWords[k]);
    } else if NameMentions(name, PremiumWords) {
      var k :| 0 <= k < |PremiumWords| && Contains(Lower(name), PremiumWords[k]);
      ContainsExtended(Lower(name), Lower(more), PremiumWords[k]);
    }
  }

  /** The lists the generator picks from. The source's lists are
      `SourceLists`; the generator is stated over any lists of their shape. */
  datatype Lists = Lists(
    names: seq<string>, descriptions: seq<string>, images: seq<string>,
    tags: seq<string>, categories: seq<string>, badges: seq<string>)

  const SourceLists := Lists(MealNames, Descriptions, ImageUrls, Tags, Categories, Badges)

  /** Lists a generator can pick from: each non-empty, with at least three
      tags and two categories to take. */
  predicate UsableLists(l: Lists) {
    |l.names| > 0 && |l.descriptions| > 0 && |l.images| > 0
    && |l.tags| >= 3 && |l.categories| >= 2 && |l.badges| > 0
  }

  /** The source's lists are usable. */
  lemma SourceListsUsable()
    ensures UsableLists(SourceLists)
  {
  }

  /** What the random draws for one meal come to: the successive id draws
      (`Math.floor(Math.random() * 10000) + 1`), the picked indexes, the
      prep-time and calorie offsets, whether a third tag and a second
      category are taken, the orders the shuffles put the tag and category
      lists in (as positions in those lists), the badge pick and the "new"
      flag. */
  datatype MealDraw = MealDraw(
    idDraws: seq<int>, nameIndex: nat, descriptionIndex: nat, imageIndex: nat,
    prepOffset: nat, calorieOffset: nat, thirdTag: bool, secondCategory: bool,
    tagOrder: seq<nat>, categoryOrder: seq<nat>, badgeIndex: Option<nat>, isNew: bool)

  /** Draws the random calls can produce over the lists: values in their
      ranges and shuffles that are orders of the lists. */
  predicate WellFormedDraw(d: MealDraw, l: Lists) {
    (forall k :: 0 <= k < |d.idDraws| ==> 1 <= d.idDraws[k] <= MaxId)
    && d.nameIndex < |l.names| && d.descriptionIndex < |l.descriptions| && d.imageIndex < |l.images|
    && d.prepOffset < 20 && d.calorieOffset < 300
    && IsOrder(d.tagOrder, |l.tags|) && IsOrder(d.categoryOrder, |l.categories|)
    && (d.badgeIndex.Some? ==> d.badgeIndex.value < |l.badges|)
  }

  /** A generated meal; `prepMinutes` and `calories` are the numbers shown
      before `min` and `cal`. */
  datatype Meal = Meal(
    id: int, name: string, description: string, image: string, price: string,
    prepMinutes: nat, calories: nat, tags: seq<string>, category: seq<string>,
    overlayBadge: Option<string>, isNew: bool)

  /** The first id draw not yet used: the `do … while (usedIds.has(id))`
      loop, as far as the draws go. */
  function FirstUnused(idDraws: seq<int>, used: set<int>): (r: Option<int>)
    ensures r.None? <==> forall k :: 0 <= k < |idDraws| ==> idDraws[k] in used
    ensures r.Some? ==> r.value in idDraws && r.value !in used
  {
    First(idDraws, (x: int) => x !in used)
  }

  /** An order of the positions `0 .. n - 1`: each exactly once. */
  predicate IsOrder(order: seq<nat>, n: nat) {
    |order| == n && (forall i :: 0 <= i < n ==> order[i] < n)
    && forall i, j :: 0 <= i < j < n ==> order[i] != order[j]
  }

  /** The first `n` entries of `base` shuffled into `order`
      (`[...base].sort(…).slice(0, n)`): `n` distinct positions, each giving
      an entry of `base`. */
  function Pick<T>(base: seq<T>, order: seq<nat>, n: nat): (r: seq<T>)
    requires IsOrder(order, |base|) && n <= |base|
    ensures |r| == n && forall i :: 0 <= i < n ==> r[i] == base[order[i]] && r[i] in base
  {
    seq(n, i requires 0 <= i < n => base[order[i]])
  }

  /** Two or three shuffled tags, then the tier's label. */
  function MealTags(d: MealDraw, l: Lists, tier: PriceTier): (tags: seq<string>)
    requires UsableLists(l) && WellFormedDraw(d, l)
    ensures |tags| == (if d.thirdTag then 4 else 3) && tags[|tags| - 1] == TierLabel(tier)
    ensures forall i :: 0 <= i < |tags| - 1 ==> tags[i] in l.tags
  {
    var picked := Pick(l.tags, d.tagOrder, if d.thirdTag then 3 else 2);
    var tags := picked + [TierLabel(tier)];
    assert forall i :: 0 <= i < |tags| - 1 ==> tags[i] == picked[i];
    tags
  }

  /** One meal from its id and draws: the tier follows the name, the price
      and the last tag follow the tier, two or three shuffled tags come
      first, then one or two shuffled categories. */
  function BuildMeal(id: int, d: MealDraw, l: Lists): (m: Meal)
    requires UsableLists(l) && WellFormedDraw(d, l)
    ensures m.id == id && m.name == l.names[d.nameIndex] && m.isNew == d.isNew
    ensures m.price == "$" + CentsToFixed(TierPrice(DeterminePriceTier(m.name)))
    ensures 15 <= m.prepMinutes < 35 && 300 <= m.calories < 600
    ensures |m.tags| == (if d.thirdTag then 4 else 3)
    ensures m.tags[|m.tags| - 1] == TierLabel(DeterminePriceTier(m.name))
    ensures forall i :: 0 <= i < |m.tags| - 1 ==> m.tags[i] in l.tags
    ensures 1 <= |m.category| <= 2 && forall i :: 0 <= i < |m.category| ==> m.category[i] in l.categories
    ensures m.overlayBadge.Some? <==> d.badgeIndex.Some?
    ensures m.overlayBadge.Some? ==> m.overlayBadge.value in l.badges
  {
    var name := l.names[d.nameIndex];
    var tier := DeterminePriceTier(name);
    Meal(id, name, l.descriptions[d.descriptionIndex], l.images[d.imageIndex],
      "$" + CentsToFixed(TierPrice(tier)), 15 + d.prepOffset, 300 + d.calorieOffset,
      MealTags(d, l, tier), Pick(l.categories, d.categoryOrder, if d.secondCategory then 2 else 1),
      if d.badgeIndex.Some? then Some(l.badges[d.badgeIndex.value]) else None, d.isNew)
  }

  /** No two meals share an id. */
  predicate DistinctIds(meals: seq<Meal>) {
    forall i, j :: 0 <= i < j < |meals| ==> meals[i].id != meals[j].id
  }

  /** A meal built from its draw, around one of its id draws. */
  predicate MealFrom(m: Meal, d: MealDraw, l: Lists) {
    UsableLists(l) && WellFormedDraw(d, l) && 1 <= m.id <= MaxId && m.id in d.idDraws && m == BuildMeal(m.id, d, l)
  }

  /** Appending the meal built around an unused id keeps the ids distinct
      and every meal built from its own draw. */
  lemma NextMealKeeps(meals: seq<Meal>, used: set<int>, draws: seq<MealDraw>, l: Lists, id: int)
    requires UsableLists(l) && |meals| < |draws| && WellFormedDraw(draws[|meals|], l)
    requires DistinctIds(meals) && forall k :: 0 <= k < |meals| ==> meals[k].id in used
    requires forall k :: 0 <= k < |meals| ==> MealFrom(meals[k], draws[k], l)
    requires id in draws[|meals|].idDraws && id !in used
    ensures var next := meals + [BuildMeal(id, draws[|meals|], l)];
      DistinctIds(next) && (forall k :: 0 <= k < |next| ==> next[k].id in used + {id})
      && forall k :: 0 <= k < |next| ==> MealFrom(next[k], draws[k], l)
  {
    var m := BuildMeal(id, draws[|meals|], l);
    NewMealFrom(id, draws[|meals|], l);
    var next := meals + [m];
    forall k | 0 <= k < |next|
      ensures next[k].id in used + {id} && MealFrom(next[k], draws[k], l)
    {
      if k < |meals| { assert next[k] == meals[k]; }
    }
    forall i, j | 0 <= i < j < |next|
      ensures next[i].id != next[j].id
    {
      if j < |meals| { assert next[i] == meals[i] && next[j] == meals[j]; }
      else { assert next[i] == meals[i] && next[j] == m; }
    }
  }

  /** The meal built around one of a draw's ids is built from that draw. */
  lemma NewMealFrom(id: int, d: MealDraw, l: Lists)
    requires UsableLists(l) && WellFormedDraw(d, l) && id in d.idDraws
    ensures MealFrom(BuildMeal(id, d, l), d, l)
  {
    var k :| 0 <= k < |d.idDraws| && d.idDraws[k] == id;
  }

  /** `generateDummyMeals` over the given lists: `count` meals (none for a
      count of 0 or less), meal `i` built from draw `i` around the first of
      its id draws not taken by an earlier meal. Where a meal's id draws are
      all taken the source would keep drawing; the model answers `None`. */
  method GenerateMeals(l: Lists, count: int, draws: seq<MealDraw>) returns (r: Option<seq<Meal>>)
    requires UsableLists(l) && count <= |draws| && forall i :: 0 <= i < |draws| ==> WellFormedDraw(draws[i], l)
    ensures count <= 0 ==> r == Some([])
    ensures r.Some? ==> |r.value| == (if count < 0 then 0 else count)
    ensures r.Some? ==> DistinctIds(r.value)
    ensures r.Some? ==> forall i :: 0 <= i < |r.value| ==> MealFrom(r.value[i], draws[i], l)
  {
    var meals: seq<Meal> := [];
    var used: set<int> := {};
    var i := 0;
    while i < count
      invariant 0 <= i <= |draws| && i <= (if count < 0 then 0 else count) && |meals| == i
      invariant DistinctIds(meals)
      invariant forall k :: 0 <= k < i ==> meals[k].id in used
      invariant forall k :: 0 <= k < i ==> MealFrom(meals[k], draws[k], l)
    {
      match FirstUnused(draws[i].idDraws, used)
      case None =>
        return None;
      case Some(id) =>
        var m := BuildMeal(id, draws[i], l);
        NextMealKeeps(meals, used, draws, l, id);
        meals := meals + [m];
        used := used + {id};
        i := i + 1;
    }
    r := Some(meals);
  }

  /** `generateDummyMeals`: the generator over the source's lists. */
  method GenerateDummyMeals(count: int, draws: seq<MealDraw>) returns (r: Option<seq<Meal>>)
    requires count <= |draws| && forall i :: 0 <= i < |draws| ==> WellFormedDraw(draws[i], SourceLists)
    ensures count <= 0 ==> r == Some([])
    ensures r.Some? ==> |r.value| == (if count < 0 then 0 else count) && DistinctIds(r.value)
    ensures r.Some? ==> forall i :: 0 <= i < |r.value| ==> MealFrom(r.value[i], draws[i], SourceLists)
  {
    SourceListsUsable();
    r := GenerateMeals(SourceLists, count, draws);
  }
}
