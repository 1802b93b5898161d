/**
 * `RecipesFilter`, the filter set over the recipe list: an author filter, the
 * two boolean filters over the requesting user's favourites and shopping
 * cart, and a multiple-choice filter over tag slugs. A query set is the list
 * of recipe keys; every filter is a `QuerySets.Where` over it, which keeps
 * the order of the rows it keeps.
 */
module ApiFilters {
  import opened Base
  import opened QuerySets
  import opened Relations
  import opened RecipeModels
  import opened Store

  // ---- the boolean filters ------------------------------------------------

  /**
   * The recipe keys `user` holds in a (user, recipe) table. A request
   * without a signed-in user has no key, and no row matches it.
   */
  function UserRecipeIds(rows: seq<Link>, user: Option<int>): (ids: set<int>)
    ensures forall x :: x in ids <==> user.Some? && Link(user.value, x) in rows
  {
    if user.None? then {}
    else
      var ids := set l | l in rows && l.source == user.value :: l.target;
      assert forall x :: Link(user.value, x) in rows ==> x in ids by {
        forall x | Link(user.value, x) in rows ensures x in ids {
          var l := Link(user.value, x);
          assert l.target == x;
        }
      }
      ids
  }

  /** `filter(pk__in=ids)` for a true flag, `exclude(pk__in=ids)` for a false one. */
  function ByMembership(qs: seq<int>, ids: set<int>, value: bool): (r: seq<int>)
    ensures forall x :: x in r <==> x in qs && (x in ids <==> value)
    ensures multiset(r) <= multiset(qs)
  {
    if value then FilterIn(qs, ids) else ExcludeIn(qs, ids)
  }

  /** `get_is_favorited`: the recipes `user` has (or has not) marked as favourite. */
  function GetIsFavorited(qs: seq<int>, s: DbState, user: Option<int>, value: bool): (r: seq<int>)
    ensures forall x :: x in r <==> x in qs && ((user.Some? && Link(user.value, x) in s.favorites) <==> value)
    ensures multiset(r) <= multiset(qs)
  {
    ByMembership(qs, UserRecipeIds(s.favorites, user), value)
  }

  /** `get_is_in_shopping_cart`: the recipes that are (or are not) in `user`'s cart. */
  function GetIsInShoppingCart(qs: seq<int>, s: DbState, user: Option<int>, value: bool): (r: seq<int>)
    ensures forall x :: x in r <==> x in qs && ((user.Some? && Link(user.value, x) in s.cart) <==> value)
    ensures multiset(r) <= multiset(qs)
  {
    ByMembership(qs, UserRecipeIds(s.cart, user), value)
  }

  /** The true and false flags split a query set: every row lands in exactly one of the two results. */
  lemma ByMembershipPartition(qs: seq<int>, ids: set<int>)
    ensures multiset(ByMembership(qs, ids, true)) + multiset(ByMembership(qs, ids, false)) == multiset(qs)
    ensures forall x :: !(x in ByMembership(qs, ids, true) && x in ByMembership(qs, ids, false))
  {
    FilterExcludePartition(qs, ids);
  }

  lemma FavoritedPartition(qs: seq<int>, s: DbState, user: Option<int>)
    ensures multiset(GetIsFavorited(qs, s, user, true)) + multiset(GetIsFavorited(qs, s, user, false)) == multiset(qs)
  {
    ByMembershipPartition(qs, UserRecipeIds(s.favorites, user));
  }

  lemma InShoppingCartPartition(qs: seq<int>, s: DbState, user: Option<int>)
    ensures multiset(GetIsInShoppingCart(qs, s, user, true)) + multiset(GetIsInShoppingCart(qs, s, user, false)) == multiset(qs)
  {
    ByMembershipPartition(qs, UserRecipeIds(s.cart, user));
  }

  /** A list of distinct recipes stays distinct under either flag. */
  lemma ByMembershipNoRepeats(qs: seq<int>, ids: set<int>, value: bool)
    requires NoRepeats(qs)
    ensures NoRepeats(ByMembership(qs, ids, value))
  {
    if value { FilterInNoRepeats(qs, ids); } else { ExcludeInNoRepeats(qs, ids); }
  }

  // ---- the author and tag filters -----------------------------------------

  /** The recipes whose author is `author`. */
  function ByAuthor(qs: seq<int>, s: DbState, author: int): (r: seq<int>)
    ensures forall x :: x in r <==> x in qs && x in s.recipes && s.recipes[x].author == author
    ensures multiset(r) <= multiset(qs)
  {
    FilterIn(qs, AuthoredBy(s.recipes, author))
  }

  /** Some tag row of recipe `x` points at a tag whose slug is one of `slugs`. */
  predicate HasTagAmong(s: DbState, x: int, slugs: seq<string>) {
    exists l :: l in s.recipeTags && l.source == x && l.target in s.tags && s.tags[l.target].slug in slugs
  }

  /** The recipes with at least one tag whose slug is listed. */
  function TaggedWith(s: DbState, slugs: seq<string>): (ids: set<int>)
    ensures forall x :: x in ids <==> HasTagAmong(s, x, slugs)
  {
    var ids := set l | l in s.recipeTags && l.target in s.tags && s.tags[l.target].slug in slugs :: l.source;
    assert forall x :: HasTagAmong(s, x, slugs) ==> x in ids by {
      forall x | HasTagAmong(s, x, slugs) ensures x in ids {
        var l :| l in s.recipeTags && l.source == x && l.target in s.tags && s.tags[l.target].slug in slugs;
      }
    }
    ids
  }

  /**
   * The tag filter, matched on the tags' slugs (not their keys): an empty
   * list applies no filter; otherwise a recipe stays when any of its tags is
   * listed, once however many of its tags are.
   */
  function TagsFilter(qs: seq<int>, s: DbState, slugs: seq<string>): (r: seq<int>)
    ensures slugs == [] ==> r == qs
    ensures slugs != [] ==> forall x :: x in r <==> x in qs && HasTagAmong(s, x, slugs)
    ensures multiset(r) <= multiset(qs)
  {
    if slugs == [] then qs else FilterIn(qs, TaggedWith(s, slugs))
  }

  lemma TagsFilterNoRepeats(qs: seq<int>, s: DbState, slugs: seq<string>)
    requires NoRepeats(qs)
    ensures NoRepeats(TagsFilter(qs, s, slugs))
  {
    if slugs != [] {
      FilterInNoRepeats(qs, TaggedWith(s, slugs));
    }
  }

  // ---- validating the query and filtering in declaration order ------------

  /** The query's values, already parsed: absent values are `None` (or an empty tag list). */
  datatype FilterParams = FilterParams(
    author: Option<int>,
    isFavorited: Option<bool>,
    isInShoppingCart: Option<bool>,
    tags: seq<string>)

  /** A value the filter form refuses: an unknown user, or a slug no tag has. */
  datatype FilterError = InvalidAuthor(pk: int) | InvalidTag(slug: string)

  predicate SlugKnown(s: DbState, slug: string) {
    exists t :: t in s.tags && s.tags[t].slug == slug
  }

  /**
   * A listed slug that no tag has, which the form reports. The form checks
   * the slugs as an unordered set, so which unknown slug it names is not
   * fixed; the model names the first one in list order.
   */
  function FirstUnknownSlug(s: DbState, slugs: seq<string>): (r: Option<string>)
    ensures r.None? <==> forall i :: 0 <= i < |slugs| ==> SlugKnown(s, slugs[i])
    ensures r.Some? ==> exists i :: 0 <= i < |slugs| && slugs[i] == r.value && !SlugKnown(s, slugs[i])
                                    && forall j :: 0 <= j < i ==> SlugKnown(s, slugs[j])
  {
    if slugs == [] then None
    else if !SlugKnown(s, slugs[0]) then Some(slugs[0])
    else
      var r := FirstUnknownSlug(s, slugs[1..]);
      assert forall i :: 1 <= i < |slugs| ==> slugs[i] == slugs[1..][i - 1];
      if r.Some? then
        assert exists i :: 0 <= i < |slugs| && slugs[i] == r.value && !SlugKnown(s, slugs[i])
                           && forall j :: 0 <= j < i ==> SlugKnown(s, slugs[j]) by {
          var k :| 0 <= k < |slugs[1..]| && slugs[1..][k] == r.value && !SlugKnown(s, slugs[1..][k])
                   && forall j :: 0 <= j < k ==> SlugKnown(s, slugs[1..][j]);
          assert slugs[k + 1] == slugs[1..][k];
          forall j | 0 <= j < k + 1 ensures SlugKnown(s, slugs[j]) {
            if j > 0 { assert slugs[j] == slugs[1..][j - 1]; }
          }
        }
        r
      else r
  }

  /** The form's errors, field by field: the author first, then the tags. */
  function FormErrors(s: DbState, p: FilterParams): (errs: seq<FilterError>)
    ensures errs == [] <==> (p.author.Some? ==> p.author.value in s.users)
                            && forall i :: 0 <= i < |p.tags| ==> SlugKnown(s, p.tags[i])
    ensures p.author.Some? && p.author.value !in s.users ==> errs[0] == InvalidAuthor(p.author.value)
  {
    var unknown := FirstUnknownSlug(s, p.tags);
    (if p.author.Some? && p.author.value !in s.users then [InvalidAuthor(p.author.value)] else [])
    + (if unknown.Some? then [InvalidTag(unknown.value)] else [])
  }

  /** What a recipe must satisfy to stay, one conjunct per supplied value. */
  predicate Matches(s: DbState, user: Option<int>, p: FilterParams, x: int) {
    && (p.author.Some? ==> x in s.recipes && s.recipes[x].author == p.author.value)
    && (p.isFavorited.Some? ==> ((user.Some? && Link(user.value, x) in s.favorites) <==> p.isFavorited.value))
    && (p.isInShoppingCart.Some? ==> ((user.Some? && Link(user.value, x) in s.cart) <==> p.isInShoppingCart.value))
    && (p.tags != [] ==> HasTagAmong(s, x, p.tags))
  }

  /**
   * The filter set applied to `qs`: an invalid form is refused whole;
   * otherwise each supplied value filters in declaration order (author,
   * is_favorited, is_in_shopping_cart, tags) and absent ones are skipped.
   */
  function FilterQueryset(qs: seq<int>, s: DbState, user: Option<int>, p: FilterParams): (r: Result<seq<int>, seq<FilterError>>)
    ensures r.Err? <==> FormErrors(s, p) != []
    ensures r.Err? ==> r.error == FormErrors(s, p)
    ensures r.Ok? ==> multiset(r.value) <= multiset(qs)
  {
    var errs := FormErrors(s, p);
    if errs != [] then Err(errs)
    else
      var a := if p.author.Some? then ByAuthor(qs, s, p.author.value) else qs;
      var f := if p.isFavorited.Some? then GetIsFavorited(a, s, user, p.isFavorited.value) else a;
      var c := if p.isInShoppingCart.Some? then GetIsInShoppingCart(f, s, user, p.isInShoppingCart.value) else f;
      var t := TagsFilter(c, s, p.tags);
      assert multiset(t) <= multiset(c) <= multiset(f) <= multiset(a) <= multiset(qs);
      Ok(t)
  }

  /** A valid query keeps exactly the rows of `qs` that match every supplied value. */
  lemma FilterQuerysetMatches(qs: seq<int>, s: DbState, user: Option<int>, p: FilterParams)
    requires FormErrors(s, p) == []
    ensures FilterQueryset(qs, s, user, p).Ok?
    ensures forall x :: x in FilterQueryset(qs, s, user, p).value <==> x in qs && Matches(s, user, p, x)
  {
    var a := if p.author.Some? then ByAuthor(qs, s, p.author.value) else qs;
    var f := if p.isFavorited.Some? then GetIsFavorited(a, s, user, p.isFavorited.value) else a;
    var c := if p.isInShoppingCart.Some? then GetIsInShoppingCart(f, s, user, p.isInShoppingCart.value) else f;
    assert FilterQueryset(qs, s, user, p) == Ok(TagsFilter(c, s, p.tags));
  }

  /** On distinct rows, a valid query gives distinct rows. */
  lemma FilterQuerysetNoRepeats(qs: seq<int>, s: DbState, user: Option<int>, p: FilterParams)
    requires NoRepeats(qs) && FormErrors(s, p) == []
    ensures NoRepeats(FilterQueryset(qs, s, user, p).value)
  {
    var a := qs;
    if p.author.Some? {
      FilterInNoRepeats(qs, AuthoredBy(s.recipes, p.author.value));
      a := ByAuthor(qs, s, p.author.value);
    }
    var f := a;
    if p.isFavorited.Some? {
      ByMembershipNoRepeats(a, UserRecipeIds(s.favorites, user), p.isFavorited.value);
      f := GetIsFavorited(a, s, user, p.isFavorited.value);
    }
    var c := f;
    if p.isInShoppingCart.Some? {
      ByMembershipNoRepeats(f, UserRecipeIds(s.cart, user), p.isInShoppingCart.value);
      c := GetIsInShoppingCart(f, s, user, p.isInShoppingCart.value);
    }
    TagsFilterNoRepeats(c, s, p.tags);
  }
}
