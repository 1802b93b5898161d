/**
 * The hand-written view actions: `subscribe` on the user view set,
 * `favorite` and `get_queryset` on the recipe view set, and the read-only
 * `subscriptions` list. The request user of `subscribe` and `favorite` is
 * taken to be a stored user: both actions write, and the permission classes
 * of both view sets refuse anonymous writes before the action runs.
 */
module ApiViews {
  import opened Base
  import opened QuerySets
  import opened Relations
  import opened RecipeModels
  import opened Store
  import opened Settings
  import opened ApiUtils
  import opened ApiFilters

  /** The two methods the actions accept; any other is refused before the action runs. */
  datatype Method = Post | Delete

  const SelfSubscribeMessage := "Нельзя подписаться на самого себя!"

  /** The texts `favorite` answers with; the success text has no final "!", unlike the settings table. */
  const FavoriteViewMessages := Messages(
    "Рецепт уже находится в избранном!",
    "Рецепта нет в списке избранного!",
    "Рецепт успешно удален из избранного")

  const NotFound := Response(HttpNotFound, NotFoundPage)

  // ---- subscribe ----------------------------------------------------------

  /**
   * `subscribe`: an unknown publisher answers 404; subscribing to oneself
   * answers 400 before the table is read; otherwise the pair is toggled with
   * the subscription texts.
   */
  function Subscribe(s: DbState, user: int, publisher: int, m: Method): (r: (DbState, Response))
    ensures r.1.status in {HttpCreated, HttpNoContent, HttpBadRequest, HttpNotFound, HttpServerError}
    ensures r.1.status != HttpCreated && r.1.status != HttpNoContent ==> r.0 == s
  {
    if publisher !in s.users then (s, NotFound)
    else match m
      case Post =>
        if user == publisher then (s, Response(HttpBadRequest, Errors(SelfSubscribeMessage)))
        else CreateRequest(s, Subscriptions, Link(user, publisher), publisher, SubscribeMessages)
      case Delete => DeleteRequest(s, Subscriptions, Link(user, publisher), SubscribeMessages)
  }

  /**
   * For a stored request user, `subscribe` keeps the database consistent and
   * never fails with a server error. 404, a self-subscription, a repeated
   * subscription and a missing one all leave the database as it was; a new
   * subscription adds exactly that row (201), a stored one is removed (204),
   * and nothing but the subscription table changes.
   */
  lemma SubscribeSound(s: DbState, user: int, publisher: int, m: Method)
    requires Consistent(s) && user in s.users
    ensures var (t, r) := Subscribe(s, user, publisher, m);
      var link := Link(user, publisher);
      && Consistent(t)
      && r.status in {HttpCreated, HttpNoContent, HttpBadRequest, HttpNotFound}
      && (r.status == HttpNotFound <==> publisher !in s.users)
      && (r.status == HttpCreated <==> m == Post && publisher in s.users && user != publisher && link !in s.subscriptions)
      && (r.status == HttpCreated ==> t.subscriptions == s.subscriptions + [link])
      && (r.status == HttpNoContent <==> m == Delete && publisher in s.users && link in s.subscriptions)
      && (r.status == HttpNoContent ==> ElementSet(t.subscriptions) == ElementSet(s.subscriptions) - {link})
      && (m == Post && publisher in s.users && user == publisher ==> r == Response(HttpBadRequest, Errors(SelfSubscribeMessage)))
      && (r.status != HttpCreated && r.status != HttpNoContent ==> t == s)
      && t == s.(subscriptions := t.subscriptions)
  {
    var link := Link(user, publisher);
    if publisher in s.users {
      if m == Post && user != publisher {
        CreateRequestSound(s, Subscriptions, link, publisher, SubscribeMessages);
      } else if m == Delete {
        DeleteRequestSound(s, Subscriptions, link, SubscribeMessages);
      }
    }
  }

  /** The `subscribe` action, run against the database in place. */
  method SubscribeAction(db: Database, user: int, publisher: int, m: Method) returns (r: Response)
    requires db.Valid()
    modifies db
    ensures db.Valid()
    ensures (db.State(), r) == Subscribe(old(db.State()), user, publisher, m)
  {
    if publisher !in db.users {
      return NotFound;
    }
    match m
    case Post =>
      if user == publisher {
        return Response(HttpBadRequest, Errors(SelfSubscribeMessage));
      }
      r := CreateRequestObj(db, Subscriptions, Link(user, publisher), publisher, SubscribeMessages);
    case Delete =>
      r := DeleteRequestObj(db, Subscriptions, Link(user, publisher), SubscribeMessages);
  }

  /** `subscriptions`: the publishers `user` follows, as the rows with `user` as subscriber. */
  function UserSubscriptions(s: DbState, user: int): (publishers: set<int>)
    ensures forall p :: p in publishers <==> Link(user, p) in s.subscriptions
  {
    var publishers := set l | l in s.subscriptions && l.source == user :: l.target;
    assert forall p :: Link(user, p) in s.subscriptions ==> p in publishers by {
      forall p | Link(user, p) in s.subscriptions ensures p in publishers {
        var l := Link(user, p);
        assert l.target == p;
      }
    }
    publishers
  }

  /**
   * The subscription list follows the toggle: a 201 adds the publisher, a
   * 204 drops it, and every other answer leaves the list as it was; the
   * lists of other users never change.
   */
  lemma SubscriptionsFollowSubscribe(s: DbState, user: int, publisher: int, m: Method)
    requires Consistent(s) && user in s.users
    ensures var (t, r) := Subscribe(s, user, publisher, m);
      && (r.status == HttpCreated ==> UserSubscriptions(t, user) == UserSubscriptions(s, user) + {publisher})
      && (r.status == HttpNoContent ==> UserSubscriptions(t, user) == UserSubscriptions(s, user) - {publisher})
      && (r.status != HttpCreated && r.status != HttpNoContent ==> UserSubscriptions(t, user) == UserSubscriptions(s, user))
      && (forall other :: other != user ==> UserSubscriptions(t, other) == UserSubscriptions(s, other))
  {
    SubscribeSound(s, user, publisher, m);
    var (t, r) := Subscribe(s, user, publisher, m);
    assert forall l :: l in t.subscriptions <==> l in ElementSet(t.subscriptions);
    assert forall l :: l in s.subscriptions <==> l in ElementSet(s.subscriptions);
  }

  // ---- favorite -----------------------------------------------------------

  /** `favorite`: an unknown recipe answers 404; otherwise the pair is toggled with the view's own texts. */
  function Favorite(s: DbState, user: int, recipe: int, m: Method): (r: (DbState, Response))
    ensures r.1.status in {HttpCreated, HttpNoContent, HttpBadRequest, HttpNotFound, HttpServerError}
    ensures r.1.status != HttpCreated && r.1.status != HttpNoContent ==> r.0 == s
  {
    if recipe !in s.recipes then (s, NotFound)
    else match m
      case Post => CreateRequest(s, Favorites, Link(user, recipe), recipe, FavoriteViewMessages)
      case Delete => DeleteRequest(s, Favorites, Link(user, recipe), FavoriteViewMessages)
  }

  /**
   * For a stored request user, `favorite` keeps the database consistent and
   * never fails with a server error: 201 adds exactly the pair, 204 removes
   * it, and 404 and both 400 answers change nothing; only the favourites
   * table changes.
   */
  lemma FavoriteSound(s: DbState, user: int, recipe: int, m: Method)
    requires Consistent(s) && user in s.users
    ensures var (t, r) := Favorite(s, user, recipe, m);
      var link := Link(user, recipe);
      && Consistent(t)
      && r.status in {HttpCreated, HttpNoContent, HttpBadRequest, HttpNotFound}
      && (r.status == HttpNotFound <==> recipe !in s.recipes)
      && (r.status == HttpCreated <==> m == Post && recipe in s.recipes && link !in s.favorites)
      && (r.status == HttpCreated ==> t.favorites == s.favorites + [link])
      && (r.status == HttpNoContent <==> m == Delete && recipe in s.recipes && link in s.favorites)
      && (r.status == HttpNoContent ==>
            && r.body == Detail(FavoriteViewMessages.deleteSuccess)
            && ElementSet(t.favorites) == ElementSet(s.favorites) - {link})
      && (r.status == HttpBadRequest && m == Post ==> r.body == Errors(FavoriteViewMessages.postFailureRepeating))
      && (r.status == HttpBadRequest && m == Delete ==> r.body == Errors(FavoriteViewMessages.deleteFailure404))
      && (r.status != HttpCreated && r.status != HttpNoContent ==> t == s)
      && t == s.(favorites := t.favorites)
  {
    var link := Link(user, recipe);
    if recipe in s.recipes {
      if m == Post {
        CreateRequestSound(s, Favorites, link, recipe, FavoriteViewMessages);
      } else {
        DeleteRequestSound(s, Favorites, link, FavoriteViewMessages);
      }
    }
  }

  /** The `favorite` action, run against the database in place. */
  method FavoriteAction(db: Database, user: int, recipe: int, m: Method) returns (r: Response)
    requires db.Valid()
    modifies db
    ensures db.Valid()
    ensures (db.State(), r) == Favorite(old(db.State()), user, recipe, m)
  {
    if recipe !in db.recipes {
      return NotFound;
    }
    match m
    case Post =>
      r := CreateRequestObj(db, Favorites, Link(user, recipe), recipe, FavoriteViewMessages);
    case Delete =>
      r := DeleteRequestObj(db, Favorites, Link(user, recipe), FavoriteViewMessages);
  }

  // ---- get_queryset -------------------------------------------------------

  /** The query parameters `get_queryset` reads: an author key, the raw `is_favorited` text, the tag slugs. */
  datatype QueryParams = QueryParams(author: Option<int>, isFavorited: Option<string>, tags: seq<string>)

  /** The author parameter, when given, names the recipe's author. */
  predicate AuthorSelected(s: DbState, q: QueryParams, x: int) {
    q.author.Some? ==> x in s.recipes && s.recipes[x].author == q.author.value
  }

  /** `is_favorited` equal to "1" keeps the user's favourites and "0" drops them; other values keep all. */
  predicate FavoriteSelected(s: DbState, user: Option<int>, q: QueryParams, x: int) {
    && (q.isFavorited == Some("1") ==> user.Some? && Link(user.value, x) in s.favorites)
    && (q.isFavorited == Some("0") ==> !(user.Some? && Link(user.value, x) in s.favorites))
  }

  /** A non-empty slug list keeps the recipes with a listed tag. */
  predicate TagsSelected(s: DbState, q: QueryParams, x: int) {
    q.tags != [] ==> HasTagAmong(s, x, q.tags)
  }

  /**
   * How many rows the tag step yields for one row of recipe `x`: one per
   * listed tag it has, or the row itself when no slug is listed.
   */
  function TagRows(s: DbState, q: QueryParams, x: int): (n: nat)
    ensures n > 0 <==> TagsSelected(s, q, x)
    ensures q.tags == [] ==> n == 1
  {
    if q.tags == [] then 1 else JoinCount(s.recipeTags, s.tags, x, q.tags)
  }

  /** Whether recipe `x` meets every parameter that `get_queryset` acts on. */
  predicate Selected(s: DbState, user: Option<int>, q: QueryParams, x: int) {
    AuthorSelected(s, q, x) && FavoriteSelected(s, user, q, x) && TagsSelected(s, q, x)
  }

  /**
   * The number of rows a join of recipe `x` with its tags yields when the
   * tag's slug must be listed: one per matching tag row.
   */
  function JoinCount(rows: seq<Link>, tags: map<int, Tag>, x: int, slugs: seq<string>): (n: nat)
    ensures n > 0 <==> exists l :: l in rows && l.source == x && l.target in tags && tags[l.target].slug in slugs
  {
    if rows == [] then 0
    else
      var l := rows[0];
      assert rows == [l] + rows[1..];
      (if l.source == x && l.target in tags && tags[l.target].slug in slugs then 1 else 0)
      + JoinCount(rows[1..], tags, x, slugs)
  }

  function Copies(x: int, n: nat): (r: seq<int>)
    ensures |r| == n && forall y :: y in r ==> y == x
  {
    seq(n, _ => x)
  }

  /** `n` copies of `x` hold `x` exactly `n` times. */
  lemma {:induction false} CopiesCount(x: int, n: nat)
    ensures multiset(Copies(x, n))[x] == n
  {
    if n > 0 {
      CopiesCount(x, n - 1);
      assert Copies(x, n) == Copies(x, n - 1) + [x];
    }
  }

  /**
   * `filter(tags__slug__in=slugs)` as written: a join across the tag table
   * without `distinct()`, so each recipe appears once per listed tag it has.
   * It keeps the right recipes, only not once each.
   */
  function TagJoin(qs: seq<int>, s: DbState, slugs: seq<string>): (r: seq<int>)
    ensures forall x :: x in r <==> x in qs && HasTagAmong(s, x, slugs)
  {
    if qs == [] then []
    else
      var x := qs[0];
      var n := JoinCount(s.recipeTags, s.tags, x, slugs);
      var rest := TagJoin(qs[1..], s, slugs);
      assert qs == [x] + qs[1..];
      assert n > 0 ==> x in Copies(x, n) by {
        if n > 0 { assert Copies(x, n)[0] == x; }
      }
      Copies(x, n) + rest
  }

  /**
   * The join repeats each row of `qs` once per listed tag its recipe has: a
   * recipe occurring `m` times with `j` matching tag rows occurs `m * j` times.
   */
  lemma TagJoinCount(qs: seq<int>, s: DbState, slugs: seq<string>)
    ensures forall x :: multiset(TagJoin(qs, s, slugs))[x] == multiset(qs)[x] * JoinCount(s.recipeTags, s.tags, x, slugs)
  {
    forall x ensures multiset(TagJoin(qs, s, slugs))[x] == multiset(qs)[x] * JoinCount(s.recipeTags, s.tags, x, slugs) {
      TagJoinCountAt(qs, s, slugs, x);
    }
  }

  lemma {:induction false} TagJoinCountAt(qs: seq<int>, s: DbState, slugs: seq<string>, x: int)
    ensures multiset(TagJoin(qs, s, slugs))[x] == multiset(qs)[x] * JoinCount(s.recipeTags, s.tags, x, slugs)
  {
    if qs != [] {
      var y, rest := qs[0], qs[1..];
      var n := JoinCount(s.recipeTags, s.tags, y, slugs);
      var joined, tail := TagJoin(qs, s, slugs), TagJoin(rest, s, slugs);
      TagJoinCountAt(rest, s, slugs, x);
      assert qs == [y] + rest;
      assert joined == Copies(y, n) + tail;
      assert multiset(joined)[x] == multiset(Copies(y, n))[x] + multiset(tail)[x];
      if x == y {
        CopiesCount(y, n);
        assert multiset(qs)[x] == multiset(rest)[x] + 1;
        assert (multiset(rest)[x] + 1) * n == multiset(rest)[x] * n + n;
      } else {
        assert x !in Copies(y, n);
        assert multiset(qs)[x] == multiset(rest)[x];
      }
    }
  }

  /** A database with one user, one recipe of theirs and two tags, both on that recipe. */
  function TwoTagState(): (s: DbState)
    ensures s.recipeTags == [Link(7, 1), Link(7, 2)]
    ensures s.tags == map[1 := Tag("Завтрак", "#E26C2D", "breakfast"), 2 := Tag("Обед", "#49B64E", "lunch")]
  {
    EmptyState.(
      users := map[3 := UserModels.UserRow("cook@example.com", "cook", "Anna", "Lee")],
      tags := map[1 := Tag("Завтрак", "#E26C2D", "breakfast"), 2 := Tag("Обед", "#49B64E", "lunch")],
      recipes := map[7 := Recipe(3, "Омлет", "Взбить яйца", 10, "recipes/omelet.png")],
      recipeTags := [Link(7, 1), Link(7, 2)],
      nextPk := 8)
  }

  lemma TwoTagStateConsistent()
    ensures Consistent(TwoTagState())
  {
    var s := TwoTagState();
    assert NoRepeats(s.recipeTags);
  }

  /**
   * In a consistent database, a recipe carrying both listed tags comes back
   * twice from the join as written, and once from the distinct tag filter.
   */
  lemma TagJoinRepeatsRecipe()
    ensures Consistent(TwoTagState())
    ensures TagJoin([7], TwoTagState(), ["breakfast", "lunch"]) == [7, 7]
    ensures TagsFilter([7], TwoTagState(), ["breakfast", "lunch"]) == [7]
  {
    var s := TwoTagState();
    var slugs := ["breakfast", "lunch"];
    var rows := s.recipeTags;
    assert rows[1..] == [Link(7, 2)] && rows[1..][1..] == [];
    assert JoinCount(rows[1..][1..], s.tags, 7, slugs) == 0;
    assert JoinCount(rows[1..], s.tags, 7, slugs) == 1;
    assert JoinCount(rows, s.tags, 7, slugs) == 2;
    assert [7][1..] == [];
    assert Copies(7, 2) == [7, 7];
    assert TagJoin([7], s, slugs) == Copies(7, 2) + TagJoin([], s, slugs);
    var l := Link(7, 1);
    assert l in rows && l.target in s.tags && s.tags[l.target].slug in slugs;
    assert 7 in TagsFilter([7], s, slugs);
    TwoTagStateConsistent();
  }

  /** The view set; its `queryset` field starts as every recipe and `get_queryset` narrows it in place. */
  class RecipeViewset {
    var queryset: seq<int>

    constructor (all: seq<int>)
      ensures queryset == all
    {
      queryset := all;
    }

    /**
     * `get_queryset`: an author parameter naming no user answers 404 and
     * leaves the field alone; otherwise the author, favourite and tag
     * parameters narrow the field in that order, and the result is the field.
     * The tag step is the join as written, so a recipe comes back once per
     * listed tag it has; without tags no row is gained or repeated.
     */
    method GetQueryset(s: DbState, user: Option<int>, q: QueryParams) returns (r: Result<seq<int>, Response>)
      modifies this
      ensures r.Err? <==> q.author.Some? && q.author.value !in s.users
      ensures r.Err? ==> r.error == NotFound && queryset == old(queryset)
      ensures r.Ok? ==> r.value == queryset && forall x :: x in queryset <==> x in old(queryset) && Selected(s, user, q, x)
      ensures r.Ok? ==> forall x :: (multiset(queryset)[x] ==
        if AuthorSelected(s, q, x) && FavoriteSelected(s, user, q, x)
        then multiset(old(queryset))[x] * TagRows(s, q, x) else 0)
      ensures q.tags == [] ==> multiset(queryset) <= multiset(old(queryset))
      ensures q.tags == [] && NoRepeats(old(queryset)) ==> NoRepeats(queryset)
    {
      if q.author.Some? && q.author.value !in s.users {
        return Err(NotFound);
      }
      ghost var start := queryset;
      NarrowByAuthor(s, q);
      ghost var afterAuthor := queryset;
      NarrowByFavorite(s, user, q);
      ghost var afterFavorite := queryset;
      NarrowByTags(s, q);
      forall x ensures x in queryset <==> x in start && Selected(s, user, q, x) {
        assert x in afterFavorite <==> x in afterAuthor && FavoriteSelected(s, user, q, x);
        assert x in afterAuthor <==> x in start && AuthorSelected(s, q, x);
      }
      forall x ensures multiset(queryset)[x] ==
        if AuthorSelected(s, q, x) && FavoriteSelected(s, user, q, x) then multiset(start)[x] * TagRows(s, q, x) else 0
      {
        assert multiset(queryset)[x] == multiset(afterFavorite)[x] * TagRows(s, q, x);
        assert multiset(afterFavorite)[x] == if FavoriteSelected(s, user, q, x) then multiset(afterAuthor)[x] else 0;
        assert multiset(afterAuthor)[x] == if AuthorSelected(s, q, x) then multiset(start)[x] else 0;
      }
      r := Ok(queryset);
    }

    /** The `author` step: `filter(author=...)` once the author is known to exist. */
    method NarrowByAuthor(s: DbState, q: QueryParams)
      modifies this
      ensures forall x :: x in queryset <==> x in old(queryset) && AuthorSelected(s, q, x)
      ensures forall x :: multiset(queryset)[x] == if AuthorSelected(s, q, x) then multiset(old(queryset))[x] else 0
      ensures multiset(queryset) <= multiset(old(queryset))
      ensures NoRepeats(old(queryset)) ==> NoRepeats(queryset)
    {
      if q.author.Some? {
        FilterInCount(queryset, AuthoredBy(s.recipes, q.author.value));
        if NoRepeats(queryset) { FilterInNoRepeats(queryset, AuthoredBy(s.recipes, q.author.value)); }
        queryset := ByAuthor(queryset, s, q.author.value);
      }
    }

    /** The `is_favorited` step: "1" filters to the favourites, "0" excludes them. */
    method NarrowByFavorite(s: DbState, user: Option<int>, q: QueryParams)
      modifies this
      ensures forall x :: x in queryset <==> x in old(queryset) && FavoriteSelected(s, user, q, x)
      ensures forall x :: multiset(queryset)[x] == if FavoriteSelected(s, user, q, x) then multiset(old(queryset))[x] else 0
      ensures multiset(queryset) <= multiset(old(queryset))
      ensures NoRepeats(old(queryset)) ==> NoRepeats(queryset)
    {
      if q.isFavorited == Some("1") {
        FilterInCount(queryset, UserRecipeIds(s.favorites, user));
        if NoRepeats(queryset) { ByMembershipNoRepeats(queryset, UserRecipeIds(s.favorites, user), true); }
        queryset := GetIsFavorited(queryset, s, user, true);
      } else if q.isFavorited == Some("0") {
        ExcludeInCount(queryset, UserRecipeIds(s.favorites, user));
        if NoRepeats(queryset) { ByMembershipNoRepeats(queryset, UserRecipeIds(s.favorites, user), false); }
        queryset := GetIsFavorited(queryset, s, user, false);
      }
    }

    /**
     * The `tags` step: `filter(tags__slug__in=...)`, the join without
     * `distinct()`; no slug leaves the field as it is.
     */
    method NarrowByTags(s: DbState, q: QueryParams)
      modifies this
      ensures forall x :: x in queryset <==> x in old(queryset) && TagsSelected(s, q, x)
      ensures forall x :: multiset(queryset)[x] == multiset(old(queryset))[x] * TagRows(s, q, x)
      ensures q.tags == [] ==> queryset == old(queryset)
    {
      if q.tags != [] {
        TagJoinCount(queryset, s, q.tags);
        queryset := TagJoin(queryset, s, q.tags);
      }
    }
  }
}
