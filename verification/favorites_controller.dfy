/** The favourites controller of the Express backend
    (`favoritesController.js`): request validation, the mapping from the
    manager's error codes to HTTP statuses, and the pagination arithmetic of
    the listing.

    Request values arrive as text: a query or path parameter is its string,
    and a JSON body value is checked through its `String(…)` form, as the
    validation library does. An omitted optional parameter is `None`. */
module FavoritesController {
  import opened Wrappers
  import opened Strings
  import opened JsParse
  import opened Seqs
  import opened Tables
  import opened FavoriteManager

  /** The validator's `isInt` text form (leading zeros allowed): an optional
      sign followed by at least one decimal digit, and nothing else. */
  predicate IsIntText(s: string) {
    Unsigned(s) != [] && AllDigits(Unsigned(s))
  }

  /** The integer an `isInt` text denotes. */
  function IntTextValue(s: string): (v: int)
    requires IsIntText(s)
    ensures StartsWith(s, "-") ==> v <= 0
    ensures !StartsWith(s, "-") ==> v >= 0
  {
    if StartsWith(s, "-") then -(DecimalValue(Unsigned(s)) as int) else DecimalValue(Unsigned(s))
  }

  /** `isInt({min, max})`: an integer text within the bounds. */
  predicate IntInRange(s: string, min: int, max: Option<int>) {
    IsIntText(s) && IntTextValue(s) >= min && (max.Some? ==> IntTextValue(s) <= max.value)
  }

  /** `parseInt` reads an `isInt` text as the integer it denotes. */
  lemma IntTextParses(s: string)
    requires IsIntText(s)
    ensures ParseInt(s) == Some(IntTextValue(s))
  {
    assert !IsJsSpace(s[0]);
    assert TrimStart(s) == s;
    assert SplitSign(s).1 == Unsigned(s);
    ParseUnsignedDigits(s, Unsigned(s));
  }

  /** A text that is not an integer cannot pass a range check, however wide. */
  lemma RangeNeedsInteger(s: string, min: int, max: Option<int>)
    requires IntInRange(s, min, max)
    ensures ParseInt(s).Some? && ParseInt(s).value >= min
  {
    IntTextParses(s);
  }

  /** The response of a handler that reports only a status. */
  datatype Reply = Reply(status: int, code: Option<FavError>)

  /** The status `addFavorite` answers a manager result with. */
  function AddStatus(r: FavResult<Favorite>): (status: int)
    ensures status == 201 <==> r.FavOk?
    ensures status == 404 <==> r == FavErr(MealNotFound)
    ensures status == 409 <==> r == FavErr(AlreadyFavorited)
    ensures status == 201 || status == 404 || status == 409 || status == 400
  {
    match r
    case FavOk(_) => 201
    case FavErr(MealNotFound) => 404
    case FavErr(AlreadyFavorited) => 409
    case FavErr(_) => 400
  }

  /** The status `removeFavorite` answers a manager result with. */
  function RemoveStatus(r: FavResult<Favorite>): (status: int)
    ensures status == 200 <==> r.FavOk?
    ensures status == 404 <==> r == FavErr(FavoriteNotFound)
    ensures status == 200 || status == 404 || status == 400
  {
    match r
    case FavOk(_) => 200
    case FavErr(FavoriteNotFound) => 404
    case FavErr(_) => 400
  }

  /** The error code a failed manager result carries into the response. */
  function CodeOf<T>(r: FavResult<T>): (c: Option<FavError>)
    ensures c.None? <==> r.FavOk?
    ensures r.FavErr? ==> c == Some(r.code)
  {
    if r.FavOk? then None else Some(r.code)
  }

  /** `addFavorite`: a `meal_id` that is not an integer of at least 1 is
      answered 400 without touching the store; otherwise the manager's
      result decides the status. */
  function AddFavoriteHandler(s: FavStore, userId: int, mealId: string, now: int, up: bool): (r: (FavStore, Reply))
    ensures !IntInRange(mealId, 1, None) ==> r == (s, Reply(400, None))
    ensures r.1.status == 201 <==>
      IntInRange(mealId, 1, None) && MealQueryRuns(IntTextValue(mealId), up) && MealExists(s, IntTextValue(mealId))
      && !HasPair(s, userId, IntTextValue(mealId)) && userId in s.users
    ensures r.1.status == 404 <==> IntInRange(mealId, 1, None) && MealQueryRuns(IntTextValue(mealId), up) && !MealExists(s, IntTextValue(mealId))
    ensures r.1.status == 409 <==>
      IntInRange(mealId, 1, None) && MealQueryRuns(IntTextValue(mealId), up) && MealExists(s, IntTextValue(mealId)) && HasPair(s, userId, IntTextValue(mealId))
    ensures r.1.status != 201 ==> r.0 == s
    ensures r.1.status == 201 ==> HasPair(r.0, userId, IntTextValue(mealId))
  {
    if !IntInRange(mealId, 1, None) then (s, Reply(400, None))
    else
      var res := AddFavorite(s, userId, IntTextValue(mealId), now, up);
      assert res.1.FavOk? ==> IsPair(res.0.favorites[|s.favorites|], userId, IntTextValue(mealId));
      (res.0, Reply(AddStatus(res.1), CodeOf(res.1)))
  }

  /** `removeFavorite`: validated like the add; the path parameter is read
      with `parseInt`. */
  function RemoveFavoriteHandler(s: FavStore, userId: int, mealId: string, up: bool): (r: (FavStore, Reply))
    ensures !IntInRange(mealId, 1, None) ==> r == (s, Reply(400, None))
    ensures r.1.status == 200 <==> IntInRange(mealId, 1, None) && MealQueryRuns(IntTextValue(mealId), up) && HasPair(s, userId, IntTextValue(mealId))
    ensures r.1.status == 404 <==> IntInRange(mealId, 1, None) && MealQueryRuns(IntTextValue(mealId), up) && !HasPair(s, userId, IntTextValue(mealId))
    ensures r.1.status != 200 ==> r.0 == s
    ensures r.1.status == 200 ==> !HasPair(r.0, userId, IntTextValue(mealId))
  {
    if !IntInRange(mealId, 1, None) then (s, Reply(400, None))
    else
      IntTextParses(mealId);
      var res := RemoveFavorite(s, userId, ParseInt(mealId).value, up);
      (res.0, Reply(RemoveStatus(res.1), CodeOf(res.1)))
  }

  /** The response of `checkFavorite`: a status and, on 200, `is_favorite`. */
  datatype CheckReply = CheckReply(status: int, isFavorite: bool)

  /** `checkFavorite`: 400 for an invalid id, 500 when the manager reports a
      failure, otherwise 200 with whether the pair is present. */
  function CheckFavoriteHandler(s: FavStore, userId: int, mealId: string, up: bool): (r: CheckReply)
    ensures !IntInRange(mealId, 1, None) ==> r.status == 400
    ensures IntInRange(mealId, 1, None) && !MealQueryRuns(IntTextValue(mealId), up) ==> r.status == 500
    ensures r.status == 200 <==> IntInRange(mealId, 1, None) && MealQueryRuns(IntTextValue(mealId), up)
    ensures r.isFavorite <==> r.status == 200 && HasPair(s, userId, IntTextValue(mealId))
  {
    if !IntInRange(mealId, 1, None) then CheckReply(400, false)
    else
      IntTextParses(mealId);
      var res := CheckFavorite(s, userId, ParseInt(mealId).value, up);
      if !res.0 then CheckReply(500, false) else CheckReply(200, res.1)
  }

  /** A meal id past the largest `integer` passes `isInt({min: 1})`, but the
      query comparing it with `meal_id` raises: the add and the remove answer
      400 and the check 500, with nothing changed. */
  lemma OversizedMealIdFails(s: FavStore, userId: int, mealId: string, now: int)
    requires IntInRange(mealId, Int4Max + 1, None)
    ensures IntInRange(mealId, 1, None)
    ensures AddFavoriteHandler(s, userId, mealId, now, true) == (s, Reply(400, Some(DbError)))
    ensures RemoveFavoriteHandler(s, userId, mealId, true) == (s, Reply(400, Some(DbError)))
    ensures CheckFavoriteHandler(s, userId, mealId, true) == CheckReply(500, false)
  {
    IntTextParses(mealId);
  }

  /** A successful add followed by a check answers 200 with `is_favorite`. */
  lemma AddThenCheckFavorite(s: FavStore, userId: int, mealId: string, now: int)
    requires AddFavoriteHandler(s, userId, mealId, now, true).1.status == 201
    ensures CheckFavoriteHandler(AddFavoriteHandler(s, userId, mealId, now, true).0, userId, mealId, true) == CheckReply(200, true)
  {
  }

  /** The query parameters of the listing, as text. */
  datatype ListParams = ListParams(
    search: Option<string>, category: Option<string>, sort: Option<string>, order: Option<string>,
    page: Option<string>, limit: Option<string>)

  /** `Math.floor(a / b)` for integers, `b` non-zero. */
  function FloorDiv(a: int, b: int): (q: int)
    requires b != 0
    ensures b > 0 ==> q * b <= a < q * b + b
    ensures b < 0 ==> a <= q * b < a - b
  {
    if b > 0 then a / b else (-a) / (-b)
  }

  /** `Math.ceil(a / b)` for integers; `None` when `b` is 0 (the quotient is
      `Infinity` or `NaN`). */
  function CeilDiv(a: int, b: int): (q: Option<int>)
    ensures q.None? <==> b == 0
    ensures b > 0 ==> q.value * b >= a && q.value * b - b < a
  {
    if b == 0 then None else Some(-FloorDiv(-a, b))
  }

  /** `parseInt` of a parameter with a numeric default; `None` is `NaN`. */
  function NumberParam(p: Option<string>, default: int): (n: Option<int>)
    ensures p.None? ==> n == Some(default)
    ensures p.Some? ==> n == ParseInt(p.value)
  {
    if p.None? then Some(default) else ParseInt(p.value)
  }

  /** A numeric parameter that passes its range check, or is omitted with a
      default inside the range, reads as a number inside the range. */
  lemma NumberParamInRange(p: Option<string>, default: int, min: int, max: Option<int>)
    requires p.Some? ==> IntInRange(p.value, min, max)
    requires default >= min && (max.Some? ==> default <= max.value)
    ensures NumberParam(p, default).Some?
    ensures NumberParam(p, default).value >= min
    ensures max.Some? ==> NumberParam(p, default).value <= max.value
  {
    if p.Some? {
      IntTextParses(p.value);
    }
  }

  /** `x || fallback` for a text parameter. */
  function TextOr(p: Option<string>, fallback: Option<string>): (r: Option<string>)
    ensures TruthyText(p) ==> r == p
    ensures !TruthyText(p) ==> r == fallback
  {
    if TruthyText(p) then p else fallback
  }

  /** `(page - 1) * limit` over numbers that may be `NaN` (`None`). */
  function PageOffset(page: Option<int>, limit: Option<int>): (o: Option<int>)
    ensures o.Some? <==> page.Some? && limit.Some?
    ensures o.Some? ==> o.value == (page.value - 1) * limit.value
    ensures page == Some(1) && limit.Some? ==> o == Some(0)
  {
    if page.Some? && limit.Some? then Some((page.value - 1) * limit.value) else None
  }

  /** The manager options the listing handler builds: `offset =
      (page - 1) * limit`, page 1 and limit 20 by default, and the text
      options passed on only when truthy (sort and order fall back to
      `created_at` and `desc`). `NaN` in either number makes the offset
      `NaN`. */
  function ListOptions(p: ListParams): (q: ListQuery)
    ensures q.limit == NumberParam(p.limit, 20)
    ensures q.offset == PageOffset(NumberParam(p.page, 1), q.limit)
    ensures TruthyText(p.search) ==> q.rank.search == p.search
    ensures !TruthyText(p.search) ==> q.rank.search.None?
    ensures TruthyText(p.category) ==> q.rank.category == p.category
    ensures !TruthyText(p.category) ==> q.rank.category.None?
    ensures q.rank.sort == if TruthyText(p.sort) then p.sort else Some("created_at")
    ensures q.rank.order == if TruthyText(p.order) then p.order else Some("desc")
  {
    var limit := NumberParam(p.limit, 20);
    var offset := PageOffset(NumberParam(p.page, 1), limit);
    ListQuery(RankQuery(TextOr(p.search, None), TextOr(p.category, None),
                        TextOr(p.sort, Some("created_at")), TextOr(p.order, Some("desc"))),
              limit, offset)
  }

  /** With neither page nor limit given, the manager is asked for the first
      20 rows. */
  lemma DefaultsAskFirstTwenty(p: ListParams)
    requires p.page.None? && p.limit.None?
    ensures ListOptions(p).limit == Some(20) && ListOptions(p).offset == Some(0)
  {
  }

  /** The response of the listing: the page of rows and the pagination
      block, where `None` is a non-finite number; or a 400 for invalid
      parameters. */
  datatype ListReply =
    | ListOk(data: seq<(Favorite, Meal)>, currentPage: Option<int>, totalCount: nat, perPage: Option<int>, totalPages: Option<int>)
    | ListInvalid

  /** `getUserFavorites` as written: it never consults the validation the
      route declares, so every parameter reaches the arithmetic. The count
      is the user's full count, whatever the search and category. */
  function GetUserFavoritesHandler(s: FavStore, userId: int, p: ListParams, up: bool): (r: ListReply)
    ensures r.ListOk?
    ensures r.totalCount == GetUserFavoritesCount(s, userId, up)
    ensures r.currentPage == NumberParam(p.page, 1) && r.perPage == NumberParam(p.limit, 20)
    ensures r.perPage.Some? && r.perPage.value > 0 ==>
      r.totalPages.Some? && r.totalPages.value * r.perPage.value >= r.totalCount
      && r.totalPages.value * r.perPage.value - r.perPage.value < r.totalCount
    ensures forall i :: 0 <= i < |r.data| ==> r.data[i] in Ranked(s, userId, ListOptions(p).rank)
  {
    var q := ListOptions(p);
    var count := GetUserFavoritesCount(s, userId, up);
    var pages := if q.limit.Some? then CeilDiv(count, q.limit.value) else None;
    ListOk(GetUserFavorites(s, userId, q, up), NumberParam(p.page, 1), count, q.limit, pages)
  }

  /** A meal mentions a truthy search text in its name, description,
      category or dietary note, and has a truthy category, ignoring case. */
  predicate HonoursParams(p: ListParams, m: Meal) {
    && (TruthyText(p.search) ==>
          || ContainsIgnoringCase(m.name, p.search.value)
          || ContainsIgnoringCase(m.description, p.search.value)
          || ContainsIgnoringCase(m.category, p.search.value)
          || ContainsIgnoringCase(m.dietary, p.search.value))
    && (TruthyText(p.category) ==> Lower(m.category) == Lower(p.category.value))
  }

  /** The user's search and category reach the query: every listed meal
      honours them. */
  lemma ListingHonoursSearchAndCategory(s: FavStore, userId: int, p: ListParams, up: bool)
    ensures var data := GetUserFavoritesHandler(s, userId, p, up).data;
      forall i :: 0 <= i < |data| ==> HonoursParams(p, data[i].1)
  {
    var data := GetUserFavoritesHandler(s, userId, p, up).data;
    var ranked := Ranked(s, userId, ListOptions(p).rank);
    forall i | 0 <= i < |data|
      ensures HonoursParams(p, data[i].1)
    {
      assert data[i] in ranked;
      var j :| 0 <= j < |ranked| && ranked[j] == data[i];
      assert MatchesListQuery(ListOptions(p).rank, ranked[j].1);
    }
  }

  /** The first row index of page `page` of size `limit`. */
  function PageStart(page: nat, limit: nat): (start: nat)
    requires page >= 1
    ensures start == (page - 1) * limit
  {
    (page - 1) * limit
  }

  /** Page `page` of size `limit`, both positive integers, is the window of
      the ranked rows starting at `(page - 1) * limit`. */
  lemma HandlerPageIsWindow(s: FavStore, userId: int, p: ListParams, page: nat, limit: nat)
    requires page >= 1 && limit >= 1
    requires p.page == Some(NatToString(page)) && p.limit == Some(NatToString(limit))
    ensures GetUserFavoritesHandler(s, userId, p, true).data == Window(Ranked(s, userId, ListOptions(p).rank), PageStart(page, limit), Some(limit))
  {
    var q := ListOptions(p);
    PagedOptions(p, page, limit);
    HandlerData(s, userId, p, true);
    PageIsWindow(s, userId, q.rank, PageStart(page, limit), limit);
  }

  /** Positive page and limit texts ask the manager for `limit` rows at
      `(page - 1) * limit`. */
  lemma PagedOptions(p: ListParams, page: nat, limit: nat)
    requires page >= 1 && limit >= 1
    requires p.page == Some(NatToString(page)) && p.limit == Some(NatToString(limit))
    ensures ListOptions(p) == ListQuery(ListOptions(p).rank, Some(limit), Some(PageStart(page, limit)))
  {
    ParseIntOfNatToString(page);
    ParseIntOfNatToString(limit);
    var n := NumberParam(p.page, 1);
    var l := NumberParam(p.limit, 20);
    assert n == Some(page as int);
    assert l == Some(limit as int);
    var o := PageOffset(n, l);
    assert o == Some((page - 1) * limit);
  }

  /** The listing's rows are the manager's answer to the built options. */
  lemma HandlerData(s: FavStore, userId: int, p: ListParams, up: bool)
    ensures GetUserFavoritesHandler(s, userId, p, up).data == GetUserFavorites(s, userId, ListOptions(p), up)
  {
  }

  /** As written, `page=0` passes to the arithmetic: the offset is `-limit`,
      the database rejects a negative `OFFSET`, the manager turns that into
      `[]`, and the handler answers 200 with an empty page, even for a user
      with favourites. */
  lemma ZeroPageAnswersEmpty(s: FavStore, userId: int, p: ListParams)
    requires p.page == Some("0") && p.limit.None?
    ensures GetUserFavoritesHandler(s, userId, p, true).ListOk?
    ensures GetUserFavoritesHandler(s, userId, p, true).data == []
  {
    ZeroPageOptions(p);
    HandlerData(s, userId, p, true);
  }

  /** `page=0` with the default limit asks for offset -20. */
  lemma ZeroPageOptions(p: ListParams)
    requires p.page == Some("0") && p.limit.None?
    ensures ListOptions(p).offset == Some(-20)
  {
    ParseIntZero();
    var n := NumberParam(p.page, 1);
    assert n == Some(0);
    var o := PageOffset(n, Some(20));
    assert o.value == (0 - 1) * 20;
  }

  /** As written, a limit above the declared maximum of 100 is applied as
      given. */
  lemma OversizedLimitApplied(s: FavStore, userId: int, p: ListParams)
    requires p.page.None? && p.limit.Some? && IntInRange(p.limit.value, 101, None)
    ensures !IntInRange(p.limit.value, 1, Some(100))
    ensures GetUserFavoritesHandler(s, userId, p, true).perPage == Some(IntTextValue(p.limit.value))
    ensures GetUserFavoritesHandler(s, userId, p, true).data
         == Window(Ranked(s, userId, ListOptions(p).rank), 0, Some(IntTextValue(p.limit.value)))
  {
    var l := IntTextValue(p.limit.value);
    IntTextParses(p.limit.value);
    var q := ListOptions(p);
    assert q.limit == Some(l);
    assert q.offset == Some(0);
    assert q == ListQuery(q.rank, Some(l), Some(0));
    assert GetUserFavoritesHandler(s, userId, p, true).data == GetUserFavorites(s, userId, q, true);
    PageIsWindow(s, userId, q.rank, 0, l);
  }

  /** The sort names the listing validation accepts. */
  predicate ValidSortParam(sort: string) {
    sort == "meal_name" || sort == "price" || sort == "created_at" || sort == "favorited_at"
  }

  /** The listing validation the route declares: each parameter is optional;
      page is an integer of at least 1, limit one in 1..100, sort one of the
      four columns and order exactly `asc` or `desc`. */
  predicate ListParamsValid(p: ListParams) {
    && (p.page.Some? ==> IntInRange(p.page.value, 1, None))
    && (p.limit.Some? ==> IntInRange(p.limit.value, 1, Some(100)))
    && (p.sort.Some? ==> ValidSortParam(p.sort.value))
    && (p.order.Some? ==> p.order.value == "asc" || p.order.value == "desc")
  }

  /** The listing with the declared validation applied first, as the other
      three handlers do: invalid parameters are answered 400; a valid request
      always reads a real window of the ranked rows, with a non-negative
      offset and a limit within 1..100. */
  function GetUserFavoritesValidated(s: FavStore, userId: int, p: ListParams, up: bool): (r: ListReply)
    ensures r.ListInvalid? <==> !ListParamsValid(p)
    ensures r.ListOk? ==>
      && ListOptions(p).offset.Some? && ListOptions(p).offset.value >= 0
      && ListOptions(p).limit.Some? && 1 <= ListOptions(p).limit.value <= 100
      && r.perPage == ListOptions(p).limit
      && r.totalPages.Some?
      && r.data == (if up then Window(Ranked(s, userId, ListOptions(p).rank), ListOptions(p).offset.value, ListOptions(p).limit) else [])
  {
    if !ListParamsValid(p) then ListInvalid
    else
      var q := ListOptions(p);
      NumberParamInRange(p.page, 1, 1, None);
      NumberParamInRange(p.limit, 20, 1, Some(100));
      var start := PageStart(NumberParam(p.page, 1).value, q.limit.value);
      assert q.offset == Some(start);
      PageIsWindow(s, userId, q.rank, start, q.limit.value);
      GetUserFavoritesHandler(s, userId, p, up)
  }

  /** With validation applied, `page=0` is refused instead of answered with
      an empty page. */
  lemma ValidatedRefusesZeroPage(s: FavStore, userId: int, p: ListParams, up: bool)
    requires p.page == Some("0")
    ensures GetUserFavoritesValidated(s, userId, p, up) == ListInvalid
  {
    assert "0"[0] == '0';
    assert Unsigned("0") == "0";
  }

  /** A validated request's sort and order never fall back: the column and
      direction asked for are the ones used. */
  lemma ValidatedSortHonoured(p: ListParams)
    requires ListParamsValid(p) && p.sort.Some? && p.order == Some("asc")
    ensures SortPlan(ListOptions(p).rank.sort, ListOptions(p).rank.order).1 == Sorting.Asc
  {
    assert Lower("asc") == "asc";
  }

  /** The query parameters of the popular-meals listing. */
  datatype PopularParams = PopularParams(limit: Option<string>, category: Option<string>)

  /** The popular-meals validation the route declares: limit in 1..50. */
  predicate PopularParamsValid(p: PopularParams) {
    p.limit.Some? ==> IntInRange(p.limit.value, 1, Some(50))
  }

  /** The options `getPopularMeals` passes on: `parseInt(limit)` with 10 by
      default, and a truthy category. Like the listing, the handler never
      consults its validation. */
  function PopularOptions(p: PopularParams): (r: (Option<int>, Option<string>))
    ensures p.limit.None? ==> r.0 == Some(10)
    ensures PopularParamsValid(p) ==> r.0.Some? && 1 <= r.0.value <= 50
    ensures TruthyText(r.1) <==> TruthyText(p.category)
  {
    if PopularParamsValid(p) then
      NumberParamInRange(p.limit, 10, 1, Some(50));
      (NumberParam(p.limit, 10), TextOr(p.category, None))
    else
      (NumberParam(p.limit, 10), TextOr(p.category, None))
  }
}
