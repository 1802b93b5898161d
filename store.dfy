/**
 * The database the models declare: one table per model, the uniqueness and
 * check constraints, the foreign keys with their CASCADE / PROTECT rules,
 * and the row operations the modelled code performs (`get_or_create`,
 * `get` + `delete`, `save`).
 *
 * `DbState` is the value of all tables at one moment; each operation is a
 * function from one state to the next, and the `Database` class applies it
 * in place.
 */
module Store {
  import opened Base
  import opened QuerySets
  import opened Relations
  import opened RecipeModels
  import opened UserModels
  import Settings
  import Text

  /** The three (user, target) relations the API toggles. */
  datatype RelationKind = Favorites | ShoppingCart | Subscriptions

  /**
   * A write the database refuses: a violated constraint, a PROTECT foreign
   * key, or a value the column type cannot hold.
   */
  datatype StoreError = IntegrityError | ProtectedError | DataError

  datatype DbState = DbState(
    users: map<int, UserRow>,
    tags: map<int, Tag>,
    ingredients: map<int, Ingredient>,
    recipes: map<int, Recipe>,
    recipeTags: seq<Link>,            // (recipe, tag)
    amounts: seq<IngredientAmount>,
    favorites: seq<Link>,             // (user, recipe)
    cart: seq<Link>,                  // (user, recipe)
    subscriptions: seq<Link>,         // (subscriber, publisher)
    nextPk: int)                      // the next key the database hands out
  {
    function Rows(kind: RelationKind): seq<Link> {
      match kind
      case Favorites => favorites
      case ShoppingCart => cart
      case Subscriptions => subscriptions
    }

    function WithRows(kind: RelationKind, rows: seq<Link>): (s: DbState)
      ensures s.Rows(kind) == rows
      ensures forall k :: k != kind ==> s.Rows(k) == Rows(k)
    {
      match kind
      case Favorites => this.(favorites := rows)
      case ShoppingCart => this.(cart := rows)
      case Subscriptions => this.(subscriptions := rows)
    }

    /** The table a relation's `target` refers to. */
    function Targets(kind: RelationKind): set<int> {
      if kind == Subscriptions then users.Keys else recipes.Keys
    }
  }

  const EmptyState := DbState(map[], map[], map[], map[], [], [], [], [], [], 1)

  // ---- the constraints ----------------------------------------------------

  predicate KeysBelow<V>(m: map<int, V>, bound: int) {
    forall k :: k in m ==> k < bound
  }

  predicate LinksInto(rows: seq<Link>, sources: set<int>, targets: set<int>) {
    forall l :: l in rows ==> l.source in sources && l.target in targets
  }

  /** The unique and check constraints of every table. */
  predicate UniqueConstraints(s: DbState) {
    && UniqueEmails(s.users) && UniqueUsernames(s.users)
    && UniqueSlugs(s.tags) && UniqueIngredients(s.ingredients) && UniqueRecipeNames(s.recipes)
    && NoRepeats(s.recipeTags)
    && NoRepeats(s.favorites) && NoRepeats(s.cart) && NoRepeats(s.subscriptions)
    && NoSelfLinks(s.subscriptions)
  }

  /** A value a `PositiveSmallIntegerField` column holds: a smallint that passes the column's `CHECK (>= 0)`. */
  predicate FitsPositiveSmallInt(v: int) {
    0 <= v <= Settings.SmallIntMax
  }

  /**
   * Writing `v` to a `PositiveSmallIntegerField` column: a value outside the
   * smallint range cannot be stored at all, and a negative smallint breaks the
   * column's check constraint.
   */
  function PositiveSmallIntColumn(v: int): (r: Outcome<StoreError>)
    ensures r.Pass? <==> FitsPositiveSmallInt(v)
    ensures r == Fail(DataError) <==> v < Settings.SmallIntMin || v > Settings.SmallIntMax
    ensures r.Fail? ==> r.error in {DataError, IntegrityError}
  {
    if v < Settings.SmallIntMin || v > Settings.SmallIntMax then Fail(DataError)
    else if v < 0 then Fail(IntegrityError)
    else Pass
  }

  /** The column types of `Recipe.cooking_time` and `IngredientAmount.amount`. */
  predicate ColumnRanges(s: DbState) {
    && (forall id :: id in s.recipes ==> FitsPositiveSmallInt(s.recipes[id].cookingTime))
    && (forall a :: a in s.amounts ==> FitsPositiveSmallInt(a.amount))
  }

  /** Every foreign key names a stored row. */
  predicate ForeignKeys(s: DbState) {
    && (forall id :: id in s.recipes ==> s.recipes[id].author in s.users)
    && LinksInto(s.recipeTags, s.recipes.Keys, s.tags.Keys)
    && (forall a :: a in s.amounts ==> a.recipe in s.recipes && a.ingredient in s.ingredients)
    && LinksInto(s.favorites, s.users.Keys, s.recipes.Keys)
    && LinksInto(s.cart, s.users.Keys, s.recipes.Keys)
    && LinksInto(s.subscriptions, s.users.Keys, s.users.Keys)
  }

  /** Keys handed out so far are below the next one. */
  predicate KeysIssued(s: DbState) {
    KeysBelow(s.users, s.nextPk) && KeysBelow(s.tags, s.nextPk)
    && KeysBelow(s.ingredients, s.nextPk) && KeysBelow(s.recipes, s.nextPk)
  }

  predicate Consistent(s: DbState) {
    UniqueConstraints(s) && ColumnRanges(s) && ForeignKeys(s) && KeysIssued(s)
  }

  // ---- the relation tables -----------------------------------------------

  /** The outcome of `get_or_create`: the row existed, was inserted, or the insert was refused. */
  datatype Fetch = Fetched | Created | Refused

  /** Whether the database accepts a new row `link` in the table of `kind`. */
  predicate Insertable(s: DbState, kind: RelationKind, link: Link) {
    && link.source in s.users
    && link.target in s.Targets(kind)
    && (kind == Subscriptions ==> link.source != link.target)
  }

  /** `Model.objects.get_or_create(...)` on a relation table. */
  function GetOrCreateRow(s: DbState, kind: RelationKind, link: Link): (r: (DbState, Fetch))
    ensures r.1 == Fetched <==> link in s.Rows(kind)
    ensures r.1 != Created ==> r.0 == s
  {
    if link in s.Rows(kind) then (s, Fetched)
    else if !Insertable(s, kind, link) then (s, Refused)
    else (s.WithRows(kind, s.Rows(kind) + [link]), Created)
  }

  /** `Model.objects.get(...).delete()` after a successful `get`, or a no-op when absent. */
  function DeleteRow(s: DbState, kind: RelationKind, link: Link): (t: DbState)
    ensures forall k :: k != kind ==> t.Rows(k) == s.Rows(k)
    ensures link !in t.Rows(kind)
  {
    s.WithRows(kind, RemoveLink(s.Rows(kind), link))
  }

  /**
   * `get_or_create` keeps the database consistent; it reports `Fetched`
   * exactly when the pair was present, and otherwise adds exactly that pair
   * or nothing. No other table changes.
   */
  lemma {:induction false} GetOrCreateRowSound(s: DbState, kind: RelationKind, link: Link)
    requires Consistent(s)
    ensures var (t, f) := GetOrCreateRow(s, kind, link);
      && Consistent(t)
      && (f == Fetched <==> link in s.Rows(kind))
      && (f == Created ==> t.Rows(kind) == s.Rows(kind) + [link] && ElementSet(t.Rows(kind)) == ElementSet(s.Rows(kind)) + {link})
      && (f != Created ==> t == s)
      && t == s.WithRows(kind, t.Rows(kind))
  {
    var (t, f) := GetOrCreateRow(s, kind, link);
    if f == Created {
      AppendNoRepeats(s.Rows(kind), link);
      assert ElementSet(t.Rows(kind)) == ElementSet(s.Rows(kind)) + {link};
      assert LinksInto(t.Rows(kind), s.users.Keys, s.Targets(kind));
    }
  }

  /** Deleting a pair keeps the database consistent and removes that pair only. */
  lemma {:induction false} DeleteRowSound(s: DbState, kind: RelationKind, link: Link)
    requires Consistent(s)
    ensures var t := DeleteRow(s, kind, link);
      && Consistent(t)
      && ElementSet(t.Rows(kind)) == ElementSet(s.Rows(kind)) - {link}
      && (link in s.Rows(kind) ==> |t.Rows(kind)| + 1 == |s.Rows(kind)|)
      && (link !in s.Rows(kind) ==> t == s)
      && t == s.WithRows(kind, t.Rows(kind))
  {
    var rows := s.Rows(kind);
    var t := DeleteRow(s, kind, link);
    WhereNoRepeats(rows, (l: Link) => l != link);
    if link in rows { RemoveExactlyOne(rows, link); } else { RemoveAbsent(rows, link); }
    assert forall l :: l in t.Rows(kind) ==> l in rows;
  }

  // ---- inserting rows (`save` of a new object) ---------------------------

  function InsertTagRow(s: DbState, tag: Tag): (r: (DbState, Result<int, StoreError>))
    ensures r.1.Err? ==> r.0 == s
    ensures r.1.Ok? ==> r.1.value in r.0.tags && r.0.tags[r.1.value] == tag
  {
    if exists k :: k in s.tags && s.tags[k].slug == tag.slug then (s, Err(IntegrityError))
    else (s.(tags := s.tags[s.nextPk := tag], nextPk := s.nextPk + 1), Ok(s.nextPk))
  }

  function InsertIngredientRow(s: DbState, ingredient: Ingredient): (r: (DbState, Result<int, StoreError>))
    ensures r.1.Err? ==> r.0 == s
    ensures r.1.Ok? ==> r.1.value in r.0.ingredients && r.0.ingredients[r.1.value] == ingredient
  {
    if exists k :: k in s.ingredients && s.ingredients[k] == ingredient then (s, Err(IntegrityError))
    else (s.(ingredients := s.ingredients[s.nextPk := ingredient], nextPk := s.nextPk + 1), Ok(s.nextPk))
  }

  /** The cooking time must fit its column; then the author must exist and the name be free. */
  function InsertRecipeRow(s: DbState, recipe: Recipe): (r: (DbState, Result<int, StoreError>))
    ensures r.1.Err? ==> r.0 == s
    ensures r.1.Ok? ==> FitsPositiveSmallInt(recipe.cookingTime) && r.1.value in r.0.recipes && r.0.recipes[r.1.value] == recipe
  {
    match PositiveSmallIntColumn(recipe.cookingTime)
    case Fail(e) => (s, Err(e))
    case Pass =>
      if recipe.author !in s.users || exists k :: k in s.recipes && s.recipes[k].name == recipe.name
      then (s, Err(IntegrityError))
      else (s.(recipes := s.recipes[s.nextPk := recipe], nextPk := s.nextPk + 1), Ok(s.nextPk))
  }

  /** `recipe.tags.add(tag)`: an existing pair is left as it is. */
  function AddRecipeTagRow(s: DbState, recipe: int, tag: int): (r: (DbState, Outcome<StoreError>))
    ensures r.1.Fail? ==> r.0 == s
    ensures r.1.Pass? ==> Link(recipe, tag) in r.0.recipeTags
  {
    var link := Link(recipe, tag);
    if link in s.recipeTags then (s, Pass)
    else if recipe !in s.recipes || tag !in s.tags then (s, Fail(IntegrityError))
    else (s.(recipeTags := s.recipeTags + [link]), Pass)
  }

  /** The amount must fit its column; then both keys must exist. */
  function InsertAmountRow(s: DbState, line: IngredientAmount): (r: (DbState, Outcome<StoreError>))
    ensures r.1.Fail? ==> r.0 == s
    ensures r.1.Pass? ==> FitsPositiveSmallInt(line.amount) && line in r.0.amounts
  {
    match PositiveSmallIntColumn(line.amount)
    case Fail(e) => (s, Fail(e))
    case Pass =>
      if line.recipe !in s.recipes || line.ingredient !in s.ingredients then (s, Fail(IntegrityError))
      else (s.(amounts := s.amounts + [line]), Pass)
  }

  /**
   * Writing a user row: an update when `pk` is set, an insert under a new key
   * otherwise; refused when another user has the same email or username.
   */
  function PersistUserRow(s: DbState, pk: Option<int>, row: UserRow): (r: (DbState, Result<int, StoreError>))
    ensures r.1.Err? ==> r.0 == s
    ensures r.1.Ok? ==> r.1.value in r.0.users && r.0.users[r.1.value] == row
  {
    var key := if pk.Some? then pk.value else s.nextPk;
    if exists k :: k in s.users && k != key && (s.users[k].email == row.email || s.users[k].username == row.username)
    then (s, Err(IntegrityError))
    else (s.(users := s.users[key := row], nextPk := if key >= s.nextPk then key + 1 else s.nextPk), Ok(key))
  }

  /** Inserting a tag keeps the database consistent; a refused insert changes nothing. */
  lemma InsertTagSound(s: DbState, tag: Tag)
    requires Consistent(s)
    ensures var (t, r) := InsertTagRow(s, tag);
      && Consistent(t)
      && (r.Err? <==> exists k :: k in s.tags && s.tags[k].slug == tag.slug)
      && (r.Err? ==> t == s)
      && (r.Ok? ==> r.value !in s.tags && t.tags == s.tags[r.value := tag])
      && t == s.(tags := t.tags, nextPk := t.nextPk)
  {
  }

  lemma InsertIngredientSound(s: DbState, ingredient: Ingredient)
    requires Consistent(s)
    ensures var (t, r) := InsertIngredientRow(s, ingredient);
      && Consistent(t)
      && (r.Err? <==> exists k :: k in s.ingredients && s.ingredients[k] == ingredient)
      && (r.Err? ==> t == s)
      && (r.Ok? ==> r.value !in s.ingredients && t.ingredients == s.ingredients[r.value := ingredient])
      && t == s.(ingredients := t.ingredients, nextPk := t.nextPk)
  {
  }

  lemma InsertRecipeSound(s: DbState, recipe: Recipe)
    requires Consistent(s)
    ensures var (t, r) := InsertRecipeRow(s, recipe);
      && Consistent(t)
      && (r.Err? <==> || !FitsPositiveSmallInt(recipe.cookingTime)
                      || recipe.author !in s.users
                      || exists k :: k in s.recipes && s.recipes[k].name == recipe.name)
      && (r == Err(DataError) <==> recipe.cookingTime < Settings.SmallIntMin || recipe.cookingTime > Settings.SmallIntMax)
      && (r.Err? ==> t == s)
      && (r.Ok? ==> r.value !in s.recipes && t.recipes == s.recipes[r.value := recipe])
      && t == s.(recipes := t.recipes, nextPk := t.nextPk)
  {
    var (t, r) := InsertRecipeRow(s, recipe);
    if r.Ok? {
      assert ForeignKeys(t) by {
        assert forall l :: l in t.favorites ==> l.target in s.recipes.Keys;
      }
    }
  }

  /** Tagging a recipe keeps the pairs distinct: an existing pair is not added twice. */
  lemma {:induction false} AddRecipeTagSound(s: DbState, recipe: int, tag: int)
    requires Consistent(s)
    ensures var (t, r) := AddRecipeTagRow(s, recipe, tag);
      && Consistent(t)
      && (r.Fail? <==> Link(recipe, tag) !in s.recipeTags && (recipe !in s.recipes || tag !in s.tags))
      && (r.Pass? ==> ElementSet(t.recipeTags) == ElementSet(s.recipeTags) + {Link(recipe, tag)})
      && (r.Fail? ==> t == s)
      && t == s.(recipeTags := t.recipeTags)
  {
    var link := Link(recipe, tag);
    if link !in s.recipeTags && recipe in s.recipes && tag in s.tags {
      AppendNoRepeats(s.recipeTags, link);
      var t := AddRecipeTagRow(s, recipe, tag).0;
      assert ElementSet(t.recipeTags) == ElementSet(s.recipeTags) + {link};
    }
  }

  /** An ingredient line needs an amount that fits its column and both keys to exist; there is no uniqueness to check. */
  lemma InsertAmountSound(s: DbState, line: IngredientAmount)
    requires Consistent(s)
    ensures var (t, r) := InsertAmountRow(s, line);
      && Consistent(t)
      && (r.Fail? <==> !FitsPositiveSmallInt(line.amount) || line.recipe !in s.recipes || line.ingredient !in s.ingredients)
      && (r == Fail(DataError) <==> line.amount < Settings.SmallIntMin || line.amount > Settings.SmallIntMax)
      && (r.Pass? ==> t.amounts == s.amounts + [line])
      && (r.Fail? ==> t == s)
      && t == s.(amounts := t.amounts)
  {
  }

  /** The same ingredient may be listed twice for one recipe. */
  lemma {:induction false} RepeatedIngredientLineAccepted(s: DbState, line: IngredientAmount)
    requires Consistent(s) && FitsPositiveSmallInt(line.amount)
    requires line.recipe in s.recipes && line.ingredient in s.ingredients
    ensures var t := InsertAmountRow(s, line).0;
      var u := InsertAmountRow(t, line).0;
      u.amounts == s.amounts + [line, line] && Consistent(u)
  {
    var t := InsertAmountRow(s, line).0;
    InsertAmountSound(s, line);
    InsertAmountSound(t, line);
    assert s.amounts + [line] + [line] == s.amounts + [line, line];
  }

  /** Writing a user keeps the database consistent; a refused write changes nothing. */
  lemma PersistUserSound(s: DbState, pk: Option<int>, user: UserRow)
    requires Consistent(s)
    ensures var (t, r) := PersistUserRow(s, pk, user);
      && Consistent(t)
      && (r.Ok? ==> t.users == s.users[r.value := user] && (pk.Some? ==> r.value == pk.value))
      && (r.Ok? && pk.None? ==> r.value !in s.users)
      && (r.Err? ==> t == s)
      && t == s.(users := t.users, nextPk := t.nextPk)
  {
    var (t, r) := PersistUserRow(s, pk, user);
    if r.Ok? {
      assert ForeignKeys(t) by {
        assert forall l :: l in t.subscriptions ==> l.source in s.users.Keys && l.target in s.users.Keys;
      }
    }
  }

  // ---- deleting rows, with CASCADE and PROTECT ----------------------------

  /** Deleting a recipe also deletes its tag links, ingredient lines, favourites and cart entries. */
  function DeleteRecipeRows(s: DbState, id: int): (t: DbState)
    ensures id !in t.recipes && t.recipes.Keys == s.recipes.Keys - {id}
  {
    s.(recipes := s.recipes - {id},
       recipeTags := Where(s.recipeTags, (l: Link) => l.source != id),
       amounts := Where(s.amounts, (a: IngredientAmount) => a.recipe != id),
       favorites := Where(s.favorites, (l: Link) => l.target != id),
       cart := Where(s.cart, (l: Link) => l.target != id))
  }

  /** An ingredient still named by an ingredient line may not be deleted. */
  function DeleteIngredientRow(s: DbState, id: int): (r: (DbState, Outcome<StoreError>))
    ensures r.1.Fail? ==> r.0 == s
    ensures r.1.Pass? ==> id !in r.0.ingredients
  {
    if exists a :: a in s.amounts && a.ingredient == id then (s, Fail(ProtectedError))
    else (s.(ingredients := s.ingredients - {id}), Pass)
  }

  /** The keys of the recipes `user` wrote. */
  function AuthoredBy(recipes: map<int, Recipe>, user: int): (ids: set<int>)
    ensures forall k :: k in ids <==> k in recipes && recipes[k].author == user
  {
    set k | k in recipes && recipes[k].author == user
  }

  /**
   * Deleting a user also deletes their recipes (with everything those
   * cascade to), their favourites and cart entries, and every subscription
   * in which they are subscriber or publisher.
   */
  function DeleteUserRows(s: DbState, id: int): (t: DbState)
    ensures id !in t.users && t.users.Keys == s.users.Keys - {id}
  {
    var gone := AuthoredBy(s.recipes, id);
    s.(users := s.users - {id},
       recipes := s.recipes - gone,
       recipeTags := Where(s.recipeTags, (l: Link) => l.source !in gone),
       amounts := Where(s.amounts, (a: IngredientAmount) => a.recipe !in gone),
       favorites := Where(s.favorites, (l: Link) => l.source != id && l.target !in gone),
       cart := Where(s.cart, (l: Link) => l.source != id && l.target !in gone),
       subscriptions := Where(s.subscriptions, (l: Link) => l.source != id && l.target != id))
  }

  lemma {:induction false} DeleteRecipeSound(s: DbState, id: int)
    requires Consistent(s)
    ensures var t := DeleteRecipeRows(s, id);
      && Consistent(t)
      && id !in t.recipes
      && (forall a :: a in t.amounts ==> a.recipe != id)
      && (forall l :: l in t.favorites || l in t.cart ==> l.target != id)
      && (forall l :: l in t.recipeTags ==> l.source != id)
      && t.recipes == s.recipes - {id}
      && (forall l :: l in s.recipeTags && l.source != id ==> l in t.recipeTags)
      && (forall a :: a in s.amounts && a.recipe != id ==> a in t.amounts)
      && (forall l :: l in s.favorites && l.target != id ==> l in t.favorites)
      && (forall l :: l in s.cart && l.target != id ==> l in t.cart)
      && t.subscriptions == s.subscriptions && t.users == s.users
      && t.tags == s.tags && t.ingredients == s.ingredients && t.nextPk == s.nextPk
  {
    WhereNoRepeats(s.recipeTags, (l: Link) => l.source != id);
    WhereNoRepeats(s.favorites, (l: Link) => l.target != id);
    WhereNoRepeats(s.cart, (l: Link) => l.target != id);
  }

  lemma {:induction false} DeleteIngredientSound(s: DbState, id: int)
    requires Consistent(s)
    ensures var (t, r) := DeleteIngredientRow(s, id);
      && Consistent(t)
      && (r.Fail? <==> exists a :: a in s.amounts && a.ingredient == id)
      && (r.Fail? ==> t == s)
      && (r.Pass? ==> t.ingredients == s.ingredients - {id})
      && t == s.(ingredients := t.ingredients)
  {
  }

  lemma {:induction false} DeleteUserSound(s: DbState, id: int)
    requires Consistent(s)
    ensures var t := DeleteUserRows(s, id);
      && Consistent(t)
      && id !in t.users
      && (forall l :: l in t.subscriptions ==> l.source != id && l.target != id)
      && (forall l :: l in t.favorites || l in t.cart ==> l.source != id)
      && (forall k :: k in t.recipes ==> t.recipes[k].author != id)
      && t.users == s.users - {id}
      && t.recipes == s.recipes - AuthoredBy(s.recipes, id)
      && (forall l :: l in s.subscriptions && l.source != id && l.target != id ==> l in t.subscriptions)
      && (forall l :: l in s.favorites && l.source != id && l.target !in AuthoredBy(s.recipes, id) ==> l in t.favorites)
      && (forall l :: l in s.cart && l.source != id && l.target !in AuthoredBy(s.recipes, id) ==> l in t.cart)
      && (forall l :: l in s.recipeTags && l.source !in AuthoredBy(s.recipes, id) ==> l in t.recipeTags)
      && (forall a :: a in s.amounts && a.recipe !in AuthoredBy(s.recipes, id) ==> a in t.amounts)
      && t.tags == s.tags && t.ingredients == s.ingredients && t.nextPk == s.nextPk
  {
    var gone := AuthoredBy(s.recipes, id);
    var t := DeleteUserRows(s, id);
    WhereNoRepeats(s.recipeTags, (l: Link) => l.source !in gone);
    WhereNoRepeats(s.favorites, (l: Link) => l.source != id && l.target !in gone);
    WhereNoRepeats(s.cart, (l: Link) => l.source != id && l.target !in gone);
    WhereNoRepeats(s.subscriptions, (l: Link) => l.source != id && l.target != id);
    DeleteUserKeepsForeignKeys(s, id);
  }

  lemma DeleteUserConsistent(s: DbState, id: int)
    requires Consistent(s)
    ensures Consistent(DeleteUserRows(s, id))
  {
    DeleteUserSound(s, id);
  }

  lemma DeleteUserKeepsForeignKeys(s: DbState, id: int)
    requires ForeignKeys(s)
    ensures ForeignKeys(DeleteUserRows(s, id))
  {
    var gone := AuthoredBy(s.recipes, id);
    var t := DeleteUserRows(s, id);
    var users, recipes := s.users - {id}, s.recipes - gone;
    assert t.users == users && t.recipes == recipes;
    forall k | k in recipes ensures recipes[k].author in users {
      assert k !in gone;
    }
    var tagLinks := (l: Link) => l.source !in gone;
    var lines := (a: IngredientAmount) => a.recipe !in gone;
    var userLinks := (l: Link) => l.source != id && l.target !in gone;
    var follows := (l: Link) => l.source != id && l.target != id;
    assert t.recipeTags == Where(s.recipeTags, tagLinks);
    assert t.amounts == Where(s.amounts, lines);
    assert t.favorites == Where(s.favorites, userLinks);
    assert t.cart == Where(s.cart, userLinks);
    assert t.subscriptions == Where(s.subscriptions, follows);
    KeptLinksInto(s.recipeTags, tagLinks, s.recipes.Keys, s.tags.Keys, recipes.Keys, t.tags.Keys);
    KeptLinksInto(s.favorites, userLinks, s.users.Keys, s.recipes.Keys, users.Keys, recipes.Keys);
    KeptLinksInto(s.cart, userLinks, s.users.Keys, s.recipes.Keys, users.Keys, recipes.Keys);
    KeptLinksInto(s.subscriptions, follows, s.users.Keys, s.users.Keys, users.Keys, users.Keys);
  }

  /** Rows kept by a filter that drops every row pointing outside the new key sets still point inside them. */
  lemma KeptLinksInto(rows: seq<Link>, keep: Link -> bool, sources: set<int>, targets: set<int>,
                      sources': set<int>, targets': set<int>)
    requires LinksInto(rows, sources, targets)
    requires forall l :: l in rows && keep(l) ==> l.source in sources' && l.target in targets'
    ensures LinksInto(Where(rows, keep), sources', targets')
  {
  }

  // ---- the database, updated in place -------------------------------------

  class Database {
    var users: map<int, UserRow>
    var tags: map<int, Tag>
    var ingredients: map<int, Ingredient>
    var recipes: map<int, Recipe>
    var recipeTags: seq<Link>
    var amounts: seq<IngredientAmount>
    var favorites: seq<Link>
    var cart: seq<Link>
    var subscriptions: seq<Link>
    var nextPk: int

    function State(): DbState
      reads this
    {
      DbState(users, tags, ingredients, recipes, recipeTags, amounts, favorites, cart, subscriptions, nextPk)
    }

    ghost predicate Valid()
      reads this
    {
      Consistent(State())
    }

    constructor ()
      ensures Valid() && State() == EmptyState
    {
      users, tags, ingredients, recipes := map[], map[], map[], map[];
      recipeTags, amounts := [], [];
      favorites, cart, subscriptions := [], [], [];
      nextPk := 1;
    }

    function Rows(kind: RelationKind): (rows: seq<Link>)
      reads this
      ensures rows == State().Rows(kind)
    {
      match kind
      case Favorites => favorites
      case ShoppingCart => cart
      case Subscriptions => subscriptions
    }

    method SetRows(kind: RelationKind, rows: seq<Link>)
      modifies this
      ensures State() == old(State()).WithRows(kind, rows)
    {
      match kind
      case Favorites => favorites := rows;
      case ShoppingCart => cart := rows;
      case Subscriptions => subscriptions := rows;
    }

    /** `Model.objects.get(...)` on a relation table: whether the pair is stored. */
    method Exists(kind: RelationKind, link: Link) returns (found: bool)
      ensures found <==> link in ElementSet(State().Rows(kind))
    {
      found := link in Rows(kind);
    }

    /** `Model.objects.get_or_create(...)` on a relation table. */
    method GetOrCreate(kind: RelationKind, link: Link) returns (f: Fetch)
      requires Valid()
      modifies this
      ensures Valid()
      ensures (State(), f) == GetOrCreateRow(old(State()), kind, link)
    {
      GetOrCreateRowSound(State(), kind, link);
      if link in Rows(kind) {
        f := Fetched;
      } else if !Insertable(State(), kind, link) {
        f := Refused;
      } else {
        SetRows(kind, Rows(kind) + [link]);
        f := Created;
      }
    }

    /** `delete()` of the row holding `link`. */
    method Delete(kind: RelationKind, link: Link)
      requires Valid()
      modifies this
      ensures Valid()
      ensures State() == DeleteRow(old(State()), kind, link)
    {
      DeleteRowSound(State(), kind, link);
      SetRows(kind, RemoveLink(Rows(kind), link));
    }

    method InsertTag(tag: Tag) returns (r: Result<int, StoreError>)
      requires Valid()
      modifies this
      ensures Valid()
      ensures (State(), r) == InsertTagRow(old(State()), tag)
    {
      InsertTagSound(State(), tag);
      if exists k :: k in tags && tags[k].slug == tag.slug {
        r := Err(IntegrityError);
      } else {
        tags := tags[nextPk := tag];
        r := Ok(nextPk);
        nextPk := nextPk + 1;
      }
    }

    method InsertIngredient(ingredient: Ingredient) returns (r: Result<int, StoreError>)
      requires Valid()
      modifies this
      ensures Valid()
      ensures (State(), r) == InsertIngredientRow(old(State()), ingredient)
    {
      InsertIngredientSound(State(), ingredient);
      if exists k :: k in ingredients && ingredients[k] == ingredient {
        r := Err(IntegrityError);
      } else {
        ingredients := ingredients[nextPk := ingredient];
        r := Ok(nextPk);
        nextPk := nextPk + 1;
      }
    }

    method InsertRecipe(recipe: Recipe) returns (r: Result<int, StoreError>)
      requires Valid()
      modifies this
      ensures Valid()
      ensures (State(), r) == InsertRecipeRow(old(State()), recipe)
    {
      InsertRecipeSound(State(), recipe);
      var column := PositiveSmallIntColumn(recipe.cookingTime);
      if column.Fail? {
        r := Err(column.error);
      } else if recipe.author !in users || exists k :: k in recipes && recipes[k].name == recipe.name {
        r := Err(IntegrityError);
      } else {
        recipes := recipes[nextPk := recipe];
        r := Ok(nextPk);
        nextPk := nextPk + 1;
      }
    }

    method AddRecipeTag(recipe: int, tag: int) returns (r: Outcome<StoreError>)
      requires Valid()
      modifies this
      ensures Valid()
      ensures (State(), r) == AddRecipeTagRow(old(State()), recipe, tag)
    {
      AddRecipeTagSound(State(), recipe, tag);
      var link := Link(recipe, tag);
      if link in recipeTags {
        r := Pass;
      } else if recipe !in recipes || tag !in tags {
        r := Fail(IntegrityError);
      } else {
        recipeTags := recipeTags + [link];
        r := Pass;
      }
    }

    method InsertAmount(line: IngredientAmount) returns (r: Outcome<StoreError>)
      requires Valid()
      modifies this
      ensures Valid()
      ensures (State(), r) == InsertAmountRow(old(State()), line)
    {
      InsertAmountSound(State(), line);
      var column := PositiveSmallIntColumn(line.amount);
      if column.Fail? {
        r := Fail(column.error);
      } else if line.recipe !in recipes || line.ingredient !in ingredients {
        r := Fail(IntegrityError);
      } else {
        amounts := amounts + [line];
        r := Pass;
      }
    }

    method PersistUser(pk: Option<int>, row: UserRow) returns (r: Result<int, StoreError>)
      requires Valid()
      modifies this
      ensures Valid()
      ensures (State(), r) == PersistUserRow(old(State()), pk, row)
    {
      PersistUserSound(State(), pk, row);
      var key := if pk.Some? then pk.value else nextPk;
      if exists k :: k in users && k != key && (users[k].email == row.email || users[k].username == row.username) {
        r := Err(IntegrityError);
      } else {
        users := users[key := row];
        if key >= nextPk { nextPk := key + 1; }
        r := Ok(key);
      }
    }

    method DeleteRecipe(id: int)
      requires Valid()
      modifies this
      ensures Valid()
      ensures State() == DeleteRecipeRows(old(State()), id)
    {
      var t := DeleteRecipeRows(State(), id);
      DeleteRecipeSound(State(), id);
      Commit(t);
    }

    method DeleteIngredient(id: int) returns (r: Outcome<StoreError>)
      requires Valid()
      modifies this
      ensures Valid()
      ensures (State(), r) == DeleteIngredientRow(old(State()), id)
    {
      DeleteIngredientSound(State(), id);
      if exists a :: a in amounts && a.ingredient == id {
        r := Fail(ProtectedError);
      } else {
        ingredients := ingredients - {id};
        r := Pass;
      }
    }

    method DeleteUser(id: int)
      requires Valid()
      modifies this
      ensures Valid()
      ensures State() == DeleteUserRows(old(State()), id)
    {
      var t := DeleteUserRows(State(), id);
      DeleteUserConsistent(State(), id);
      Commit(t);
    }

    /** Writes every table of `t` at once, as a cascading delete's transaction does. */
    method Commit(t: DbState)
      modifies this
      ensures State() == t
    {
      users, tags, ingredients, recipes := t.users, t.tags, t.ingredients, t.recipes;
      recipeTags, amounts := t.recipeTags, t.amounts;
      favorites, cart, subscriptions := t.favorites, t.cart, t.subscriptions;
      nextPk := t.nextPk;
    }
  }

  // ---- a user object and its `save` ---------------------------------------

  /** An in-memory user object; `pk` is `None` until it has been saved once. */
  class User {
    var pk: Option<int>
    var email: string
    var username: string
    var firstName: string
    var lastName: string

    constructor (email: string, username: string, firstName: string, lastName: string)
      ensures pk == None && Row() == UserRow(email, username, firstName, lastName)
    {
      this.pk := None;
      this.email, this.username := email, username;
      this.firstName, this.lastName := firstName, lastName;
    }

    function Row(): UserRow
      reads this
    {
      UserRow(email, username, firstName, lastName)
    }

    /**
     * `User.save`: capitalises both names on the object, then writes the row.
     * The names stay capitalised on the object even when the write is refused.
     */
    method Save(db: Database) returns (r: Result<int, StoreError>)
      requires db.Valid()
      modifies this, db
      ensures db.Valid()
      ensures Row() == SavedNames(old(Row()))
      ensures (db.State(), r) == PersistUserRow(old(db.State()), old(pk), Row())
      ensures pk == if r.Ok? then Some(r.value) else old(pk)
    {
      firstName := Text.Capitalize(firstName);
      lastName := Text.Capitalize(lastName);
      r := db.PersistUser(pk, Row());
      if r.Ok? {
        pk := Some(r.value);
      }
    }
  }

  /** A saved user row holds the capitalised names and the other fields as they were. */
  lemma {:induction false} SaveStoresCapitalizedNames(s: DbState, pk: Option<int>, row: UserRow)
    requires Consistent(s)
    ensures var (t, r) := PersistUserRow(s, pk, SavedNames(row));
      r.Ok? ==> && t.users[r.value].firstName == Text.Capitalize(row.firstName)
                && t.users[r.value].lastName == Text.Capitalize(row.lastName)
                && t.users[r.value].email == row.email
                && t.users[r.value].username == row.username
  {
    PersistUserSound(s, pk, SavedNames(row));
  }

  /** Saving a saved user again stores the same names: the second capitalisation changes nothing. */
  lemma {:induction false} SaveTwiceSameNames(s: DbState, key: int, row: UserRow)
    requires Consistent(s)
    ensures var (t, r) := PersistUserRow(s, Some(key), SavedNames(row));
      r.Ok? ==> PersistUserRow(t, Some(key), SavedNames(t.users[key])) == (t, Ok(key))
  {
    var (t, r) := PersistUserRow(s, Some(key), SavedNames(row));
    if r.Ok? {
      PersistUserSound(s, Some(key), SavedNames(row));
      SavedNamesIdempotent(row);
      assert SavedNames(t.users[key]) == t.users[key];
      assert t.users[key := t.users[key]] == t.users;
    }
  }
}
