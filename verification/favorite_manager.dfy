/** The favourites manager of the data layer (`favoriteManager.js`): a
    user's set of favourite meals, kept in the `favorite` table.

    The table has a unique key on (user, meal), so a second insert of a pair
    raises the unique violation the code reports as `ALREADY_FAVORITED`;
    its user column references `account`, so an unknown user makes the
    insert fail with a plain database error. Whether the database answers is
    `up`; the clock is `now`. */
module FavoriteManager {
  import opened Wrappers
  import opened Seqs
  import opened Sorting
  import opened Strings
  import opened Tables

  /** A row of `favorite`. */
  datatype Favorite = Favorite(favoriteId: int, userId: int, mealId: int, createdAt: int)

  /** The tables the manager reads and writes. */
  datatype FavStore = FavStore(favorites: seq<Favorite>, nextId: int, meals: seq<Meal>, users: set<int>)

  /** The error codes a call can report; `DbError` is a database error
      passed on as its message. */
  datatype FavError = MealNotFound | AlreadyFavorited | FavoriteNotFound | DbError

  /** The result of a favourites call. */
  datatype FavResult<+T> = FavOk(value: T) | FavErr(code: FavError)

  /** Whether `f` is the (user, meal) pair. */
  predicate IsPair(f: Favorite, userId: int, mealId: int) {
    f.userId == userId && f.mealId == mealId
  }

  /** Whether the user has favourited the meal. */
  predicate HasPair(s: FavStore, userId: int, mealId: int) {
    exists i :: 0 <= i < |s.favorites| && IsPair(s.favorites[i], userId, mealId)
  }

  /** Whether some inventory row has id `mealId`, active or not. */
  predicate MealExists(s: FavStore, mealId: int) {
    exists i :: 0 <= i < |s.meals| && s.meals[i].mealId == mealId
  }

  /** The unique key on (user, meal) holds. */
  predicate UniquePairs(s: FavStore) {
    forall i, j :: 0 <= i < j < |s.favorites| ==>
      !IsPair(s.favorites[j], s.favorites[i].userId, s.favorites[i].mealId)
  }

  /** Whether a query comparing `meal_id` with `mealId` runs: the database
      answers, and the id fits the `integer` column (PostgreSQL rejects a
      larger parameter with "integer out of range"). */
  predicate MealQueryRuns(mealId: int, up: bool) {
    up && IsInt4(mealId)
  }

  /** `addFavorite`: insert the pair after checking that the meal exists. */
  function AddFavorite(s: FavStore, userId: int, mealId: int, now: int, up: bool): (r: (FavStore, FavResult<Favorite>))
    ensures r.1.FavOk? <==> MealQueryRuns(mealId, up) && MealExists(s, mealId) && !HasPair(s, userId, mealId) && userId in s.users
    ensures r.1 == FavErr(MealNotFound) <==> MealQueryRuns(mealId, up) && !MealExists(s, mealId)
    ensures r.1 == FavErr(AlreadyFavorited) <==> MealQueryRuns(mealId, up) && MealExists(s, mealId) && HasPair(s, userId, mealId)
    ensures r.1.FavErr? ==> r.0 == s
    ensures r.1.FavOk? ==> r.0 == s.(favorites := s.favorites + [r.1.value], nextId := s.nextId + 1)
    ensures r.1.FavOk? ==> IsPair(r.1.value, userId, mealId) && r.1.value.favoriteId == s.nextId
  {
    if !MealQueryRuns(mealId, up) then (s, FavErr(DbError))
    else if !MealExists(s, mealId) then (s, FavErr(MealNotFound))
    else if HasPair(s, userId, mealId) then (s, FavErr(AlreadyFavorited))
    else if userId !in s.users then (s, FavErr(DbError))
    else
      var f := Favorite(s.nextId, userId, mealId, now);
      (s.(favorites := s.favorites + [f], nextId := s.nextId + 1), FavOk(f))
  }

  /** Adding keeps the unique key on (user, meal). */
  lemma AddKeepsUniquePairs(s: FavStore, userId: int, mealId: int, now: int, up: bool)
    requires UniquePairs(s)
    ensures UniquePairs(AddFavorite(s, userId, mealId, now, up).0)
  {
    var r := AddFavorite(s, userId, mealId, now, up);
    if r.1.FavOk? {
      var fs := r.0.favorites;
      assert forall i :: 0 <= i < |s.favorites| ==> fs[i] == s.favorites[i];
      assert forall i :: 0 <= i < |s.favorites| ==> !IsPair(s.favorites[i], userId, mealId);
    }
  }

  /** `removeFavorite`: delete the pair. */
  function RemoveFavorite(s: FavStore, userId: int, mealId: int, up: bool): (r: (FavStore, FavResult<Favorite>))
    ensures r.1.FavOk? <==> MealQueryRuns(mealId, up) && HasPair(s, userId, mealId)
    ensures r.1 == FavErr(FavoriteNotFound) <==> MealQueryRuns(mealId, up) && !HasPair(s, userId, mealId)
    ensures r.1.FavErr? ==> r.0 == s
    ensures r.1.FavOk? ==> r.0 == s.(favorites := Filter(s.favorites, (f: Favorite) => !IsPair(f, userId, mealId)))
    ensures r.1.FavOk? ==> r.1.value in s.favorites && IsPair(r.1.value, userId, mealId)
  {
    if !MealQueryRuns(mealId, up) then (s, FavErr(DbError))
    else match First(s.favorites, (f: Favorite) => IsPair(f, userId, mealId))
      case None => (s, FavErr(FavoriteNotFound))
      case Some(f) => (s.(favorites := Filter(s.favorites, (f: Favorite) => !IsPair(f, userId, mealId))), FavOk(f))
  }

  /** `checkFavorite`: `(success, is_favorite)`; an unknown user simply has
      no pairs, and a database error gives `(false, false)`. */
  function CheckFavorite(s: FavStore, userId: int, mealId: int, up: bool): (r: (bool, bool))
    ensures r.0 <==> MealQueryRuns(mealId, up)
    ensures r.1 <==> MealQueryRuns(mealId, up) && HasPair(s, userId, mealId)
  {
    if !MealQueryRuns(mealId, up) then (false, false)
    else (true, Any(s.favorites, (f: Favorite) => IsPair(f, userId, mealId)))
  }

  /** Add then check reports the pair; add, remove, then check does not. */
  lemma AddRemoveCheck(s: FavStore, userId: int, mealId: int, now: int)
    requires AddFavorite(s, userId, mealId, now, true).1.FavOk?
    ensures var s1 := AddFavorite(s, userId, mealId, now, true).0;
      && CheckFavorite(s1, userId, mealId, true) == (true, true)
      && CheckFavorite(RemoveFavorite(s1, userId, mealId, true).0, userId, mealId, true) == (true, false)
  {
    var s1 := AddFavorite(s, userId, mealId, now, true).0;
    assert IsPair(s1.favorites[|s.favorites|], userId, mealId);
    var s2 := RemoveFavorite(s1, userId, mealId, true).0;
    assert !HasPair(s2, userId, mealId);
  }

  /** The user's favourites, by row predicate. */
  predicate OwnedBy(f: Favorite, userId: int) {
    f.userId == userId
  }

  /** `getUserFavoritesCount`: how many favourites the user has; 0 on a
      database error. */
  function GetUserFavoritesCount(s: FavStore, userId: int, up: bool): (n: nat)
    ensures !up ==> n == 0
    ensures up ==> n == |Filter(s.favorites, (f: Favorite) => OwnedBy(f, userId))|
    ensures n == 0 <==> !up || forall i :: 0 <= i < |s.favorites| ==> s.favorites[i].userId != userId
  {
    if !up then 0 else Count(s.favorites, (f: Favorite) => OwnedBy(f, userId))
  }

  /** A successful add raises the user's count by one. */
  lemma AddRaisesCount(s: FavStore, userId: int, mealId: int, now: int)
    requires AddFavorite(s, userId, mealId, now, true).1.FavOk?
    ensures GetUserFavoritesCount(AddFavorite(s, userId, mealId, now, true).0, userId, true)
         == GetUserFavoritesCount(s, userId, true) + 1
  {
    var r := AddFavorite(s, userId, mealId, now, true);
    FilterConcat(s.favorites, [r.1.value], (f: Favorite) => OwnedBy(f, userId));
  }

  /** `removeAllUserFavorites`: delete every favourite of the user and report
      how many went. */
  function RemoveAllUserFavorites(s: FavStore, userId: int, up: bool): (r: (FavStore, FavResult<nat>))
    ensures r.1.FavOk? <==> up
    ensures !up ==> r.0 == s
    ensures up ==> r.0 == s.(favorites := Filter(s.favorites, (f: Favorite) => !OwnedBy(f, userId)))
    ensures up ==> r.1.value == GetUserFavoritesCount(s, userId, true)
  {
    if !up then (s, FavErr(DbError))
    else
      var kept := Filter(s.favorites, (f: Favorite) => !OwnedBy(f, userId));
      CountSplit(s.favorites, (f: Favorite) => OwnedBy(f, userId), (f: Favorite) => !OwnedBy(f, userId));
      (s.(favorites := kept), FavOk(|s.favorites| - |kept|))
  }

  /** Removing all of one user's favourites empties that user's set and
      leaves every other user's set as it was. */
  lemma RemoveAllIsolated(s: FavStore, userId: int, other: int)
    requires other != userId
    ensures GetUserFavoritesCount(RemoveAllUserFavorites(s, userId, true).0, userId, true) == 0
    ensures Filter(RemoveAllUserFavorites(s, userId, true).0.favorites, (f: Favorite) => OwnedBy(f, other))
         == Filter(s.favorites, (f: Favorite) => OwnedBy(f, other))
  {
    FilterFilter(s.favorites, (f: Favorite) => !OwnedBy(f, userId), (f: Favorite) => OwnedBy(f, other));
  }

  /** The filtering and ordering options of `getUserFavorites`; `None` is
      an omitted option. */
  datatype RankQuery = RankQuery(search: Option<string>, category: Option<string>, sort: Option<string>, order: Option<string>)

  /** All options of `getUserFavorites`; a paging number that is `NaN` is
      `None`, like an omitted one. */
  datatype ListQuery = ListQuery(rank: RankQuery, limit: Option<int>, offset: Option<int>)

  /** The column a listing is ordered by. */
  datatype SortColumn = ByMealName | ByPrice | ByMealCreated | ByFavorited

  /** The sort names the manager accepts. */
  predicate ValidSort(sort: string) {
    sort == "meal_name" || sort == "price" || sort == "created_at" || sort == "favorited_at"
  }

  /** The order names the manager accepts, compared after lower-casing; an
      omitted order is `desc`. */
  predicate ValidOrder(order: Option<string>) {
    Lower(order.GetOr("desc")) == "asc" || Lower(order.GetOr("desc")) == "desc"
  }

  /** The `ORDER BY` a listing uses. An omitted sort is `created_at`, which
      names the meal's creation time; an omitted order is `desc`; the order
      is compared case-insensitively. Anything outside the whitelist falls
      back to the most recently favourited first. */
  function SortPlan(sort: Option<string>, order: Option<string>): (p: (SortColumn, Direction))
    ensures !ValidSort(sort.GetOr("created_at")) ==> p == (ByFavorited, Desc)
    ensures !ValidOrder(order) ==> p == (ByFavorited, Desc)
    ensures sort.None? && order.None? ==> p == (ByMealCreated, Desc)
    ensures ValidSort(sort.GetOr("created_at")) && Lower(order.GetOr("desc")) == "asc" ==> p.1 == Asc
    ensures ValidSort(sort.GetOr("created_at")) && Lower(order.GetOr("desc")) == "desc" ==> p.1 == Desc
    ensures ValidOrder(order) && sort.GetOr("created_at") == "meal_name" ==> p.0 == ByMealName
    ensures ValidOrder(order) && sort.GetOr("created_at") == "price" ==> p.0 == ByPrice
    ensures ValidOrder(order) && sort.GetOr("created_at") == "created_at" ==> p.0 == ByMealCreated
    ensures ValidOrder(order) && sort.GetOr("created_at") == "favorited_at" ==> p.0 == ByFavorited
  {
    var s := sort.GetOr("created_at");
    var o := Lower(order.GetOr("desc"));
    if ValidSort(s) && (o == "asc" || o == "desc") then
      var col := if s == "meal_name" then ByMealName
                 else if s == "favorited_at" then ByFavorited
                 else if s == "created_at" then ByMealCreated
                 else ByPrice;
      (col, if o == "asc" then Asc else Desc)
    else
      assert o == Lower("desc") ==> o == "desc";
      (ByFavorited, Desc)
  }

  /** The sort key of a listed row under column `c`. */
  function ColumnKey(c: SortColumn, v: (Favorite, Meal)): (k: seq<int>) {
    match c
    case ByMealName => TextKey(v.1.name)
    case ByPrice => IntKey(v.1.price)
    case ByMealCreated => IntKey(v.1.createdAt)
    case ByFavorited => IntKey(v.0.createdAt)
  }

  /** The join condition of the listing. */
  predicate FavMeal(f: Favorite, m: Meal) {
    f.mealId == m.mealId
  }

  /** Whether a meal passes the truthy search and category options. The
      search is a case-insensitive substring of the name, description,
      category or dietary text; the category must equal, ignoring case. */
  predicate MatchesListQuery(q: RankQuery, m: Meal) {
    && (TruthyText(q.search) ==>
          || ContainsIgnoringCase(m.name, q.search.value)
          || ContainsIgnoringCase(m.description, q.search.value)
          || ContainsIgnoringCase(m.category, q.search.value)
          || ContainsIgnoringCase(m.dietary, q.search.value))
    && (TruthyText(q.category) ==> Lower(m.category) == Lower(q.category.value))
  }

  /** The user's favourites joined with their meals, filtered and ordered,
      before paging. */
  function Ranked(s: FavStore, userId: int, q: RankQuery): (r: seq<(Favorite, Meal)>)
    ensures SortedBy(r, (v: (Favorite, Meal)) => ColumnKey(SortPlan(q.sort, q.order).0, v), SortPlan(q.sort, q.order).1)
    ensures forall i :: 0 <= i < |r| ==>
      && r[i].0 in s.favorites && r[i].0.userId == userId
      && r[i].1 in s.meals && FavMeal(r[i].0, r[i].1) && MatchesListQuery(q, r[i].1)
  {
    var joined := Join(Filter(s.favorites, (f: Favorite) => OwnedBy(f, userId)), s.meals, FavMeal);
    var kept := Filter(joined, (v: (Favorite, Meal)) => MatchesListQuery(q, v.1));
    var plan := SortPlan(q.sort, q.order);
    SortBy(kept, (v: (Favorite, Meal)) => ColumnKey(plan.0, v), plan.1)
  }

  /** Every matching favourite of the user is ranked. */
  lemma RankedComplete(s: FavStore, userId: int, q: RankQuery, f: Favorite, m: Meal)
    requires f in s.favorites && f.userId == userId && m in s.meals && FavMeal(f, m) && MatchesListQuery(q, m)
    ensures (f, m) in Ranked(s, userId, q)
  {
    var mine := Filter(s.favorites, (x: Favorite) => OwnedBy(x, userId));
    assert f in mine;
    JoinComplete(mine, s.meals, FavMeal, f, m);
    var joined := Join(mine, s.meals, FavMeal);
    assert (f, m) in Filter(joined, (v: (Favorite, Meal)) => MatchesListQuery(q, v.1));
  }

  /** The page a `LIMIT`/`OFFSET` pair cuts from rows: a falsy limit or
      offset is not applied, and a negative one fails the query, which
      yields `[]`. */
  function PageOf<T>(rows: seq<T>, limit: Option<int>, offset: Option<int>): (r: seq<T>)
    ensures TruthyInt(limit) && limit.value < 0 ==> r == []
    ensures TruthyInt(offset) && offset.value < 0 ==> r == []
    ensures TruthyInt(limit) && limit.value > 0 ==> |r| <= limit.value
    ensures forall i :: 0 <= i < |r| ==> r[i] in rows
    ensures !TruthyInt(limit) && !TruthyInt(offset) ==> r == rows
    ensures !TruthyInt(limit) && TruthyInt(offset) && offset.value > 0 ==>
      r == if offset.value < |rows| then rows[offset.value..] else []
    ensures TruthyInt(limit) && limit.value > 0 && !TruthyInt(offset) ==>
      r == if limit.value < |rows| then rows[..limit.value] else rows
  {
    var o := if TruthyInt(offset) then offset.value else 0;
    var l := if TruthyInt(limit) then limit.value else 0;
    if o < 0 || l < 0 then []
    else Window(rows, o, if l == 0 then None else Some(l))
  }

  /** A positive limit and a non-negative offset cut the window there. */
  lemma PageOfWindow<T>(rows: seq<T>, offset: nat, l: nat)
    requires l > 0
    ensures PageOf(rows, Some(l), Some(offset)) == Window(rows, offset, Some(l))
  {
  }

  /** `getUserFavorites`: one page of the ranked favourites; any database
      error gives `[]`. */
  function GetUserFavorites(s: FavStore, userId: int, q: ListQuery, up: bool): (r: seq<(Favorite, Meal)>)
    ensures !up ==> r == []
    ensures TruthyInt(q.limit) && q.limit.value < 0 ==> r == []
    ensures TruthyInt(q.offset) && q.offset.value < 0 ==> r == []
    ensures TruthyInt(q.limit) && q.limit.value > 0 ==> |r| <= q.limit.value
    ensures forall i :: 0 <= i < |r| ==> r[i] in Ranked(s, userId, q.rank)
  {
    if !up then [] else PageOf(Ranked(s, userId, q.rank), q.limit, q.offset)
  }

  /** Without paging, the listing holds exactly the user's favourites whose
      meal passes the search and category options. */
  lemma UnpagedListingExact(s: FavStore, userId: int, q: ListQuery, f: Favorite, m: Meal)
    requires q.limit.None? && q.offset.None?
    ensures (f, m) in GetUserFavorites(s, userId, q, true) <==>
      f in s.favorites && f.userId == userId && m in s.meals && FavMeal(f, m) && MatchesListQuery(q.rank, m)
  {
    if f in s.favorites && f.userId == userId && m in s.meals && FavMeal(f, m) && MatchesListQuery(q.rank, m) {
      RankedComplete(s, userId, q.rank, f, m);
    }
  }

  /** With a positive limit and a non-negative offset, a page is the window
      of the ranked rows at that offset (an offset of 0 is falsy, which is
      the same as no offset). */
  lemma PageIsWindow(s: FavStore, userId: int, q: RankQuery, offset: nat, l: nat)
    requires l > 0
    ensures GetUserFavorites(s, userId, ListQuery(q, Some(l), Some(offset)), true) == Window(Ranked(s, userId, q), offset, Some(l))
  {
    PageOfWindow(Ranked(s, userId, q), offset, l);
  }

  /** Two consecutive pages of size `l` are the page of size `2l` at the
      first offset, so paging neither skips nor repeats a row. */
  lemma PagesTile(s: FavStore, userId: int, q: RankQuery, offset: nat, l: nat)
    requires l > 0
    ensures GetUserFavorites(s, userId, ListQuery(q, Some(l), Some(offset)), true)
          + GetUserFavorites(s, userId, ListQuery(q, Some(l), Some(offset + l)), true)
         == GetUserFavorites(s, userId, ListQuery(q, Some(2 * l), Some(offset)), true)
  {
    PageOfTile(Ranked(s, userId, q), offset, l);
  }

  /** Two consecutive pages of rows make the page of twice the size. */
  lemma PageOfTile<T>(rows: seq<T>, offset: nat, l: nat)
    requires l > 0
    ensures PageOf(rows, Some(l), Some(offset)) + PageOf(rows, Some(l), Some(offset + l))
         == PageOf(rows, Some(2 * l), Some(offset))
  {
    PageOfWindow(rows, offset, l);
    PageOfWindow(rows, offset + l, l);
    PageOfWindow(rows, offset, 2 * l);
    WindowsTile(rows, offset, l);
  }
}
