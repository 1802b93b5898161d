# foodgram core, modelled in Dafny

This project models the logic of the foodgram recipe backend (Django and the REST framework). The model covers five parts.

- **The relation store and the add/remove toggle.**
  - Favourites, shopping-cart entries and subscriptions are tables of (user, target) rows. Each table has a uniqueness constraint, and subscriptions also forbid following oneself.
  - The toggle is the generic `create_request_obj` / `delete_request_obj` pair and the hand-written `subscribe` and `favorite` view actions.
- **Recipe-list filtering.**
  - `RecipesFilter` covers the author filter, the favourite and shopping-cart flags, and the tag-slug filter.
  - `RecipeViewset.get_queryset` narrows its `queryset` field step by step.
- **The validators.**
  - The tag-list and ingredient-list checks of the API.
  - The name character-class check on tag and ingredient names (the same validator also sits on the recipe's author key, and the recipe name has none).
  - The reserved-username rule.
- **The permission classes**, as boolean formulas over the request method and the user's flags.
- **The models.**
  - The row shapes with their unique, check and foreign-key constraints, including the CASCADE and PROTECT deletion rules and the range of the positive smallint columns.
  - `User.save`, which capitalises the first and last names.

## How the model is built

- **Value types and queries.** Rows are datatypes. A query set is the ordered list of recipe keys.
- **The database.** It is both a value, `Store.DbState`, and a class, `Store.Database`.
  - Every operation is a function from one `DbState` to the next, together with a lemma. The lemma proves that the operation keeps `Store.Consistent` (every constraint of the models) and says exactly which rows change.
  - Each `Database` method changes its fields in place and promises `State() == F(old(State()))` for that function.
- **Stateful source, imperative model.**
  - `User.save` and `RecipeViewset.get_queryset` update object fields in the source, so in the model they are methods of the classes `Store.User` and `ApiViews.RecipeViewset`.
- **Pure source, pure model.** Pure code (filters, validators, permissions) is modelled as functions and lemmas.
- **Text.** String case and `\s` use an explicit character model (module `Text`):
  - case is modelled for ASCII Latin and for Cyrillic U+0400..U+045F;
  - whitespace is the set of characters for which Python's `str.isspace` holds.

Three behaviours of the code are easy to misread, and the model follows the code in each:

- `validate_tags` and `validate_ingredients` refuse only a missing list (backend/foodgram/api/validators.py:9, :30). An empty list passes, although the message for a missing ingredient list says that at least one ingredient is needed.
- Deleting a relation that is not stored answers 400 (backend/foodgram/api/utils.py:44-48), although its message is stored under the key `delete_failure_404`.
- `validate_ingredients` never looks the ingredient ids up (backend/foodgram/api/validators.py:26-45), so an unknown id passes it.

## Model

| member | source | states |
|---|---|---|
| Text.Capitalize | backend/foodgram/users/models.py:59-60 | `capitalize()`: the same length; the first character is not lower-case; no later character is upper-case; every character equals the input's up to case |
| Text.CapitalizeIdempotent | backend/foodgram/users/models.py:59-60 | capitalising twice gives the same string as capitalising once |
| Text.LowerString | backend/foodgram/users/validators.py:6 | `lower()`: the same length, each character lowered, and no character left upper-case |
| RecipeValidators.ClassRun | backend/foodgram/recipes/validators.py:11 | the greedy `+` of the class: a prefix of class characters that stops at the first character outside the class |
| RecipeValidators.FullMatchIff | backend/foodgram/recipes/validators.py:10-13 | the full match of the pattern (with backtracking and `$`) succeeds exactly for non-empty strings made only of class characters |
| RecipeValidators.ValidateForNonpunctuationMarks | backend/foodgram/recipes/validators.py:6-16 | passes exactly for non-empty strings of `-`, А-Я, а-я, A-Z, a-z, 0-9 and whitespace; otherwise fails with the fixed `$%^&#:;!` message |
| RecipeValidators.EmptyRejected | backend/foodgram/recipes/validators.py:11 | the empty string is rejected |
| RecipeValidators.OutsiderRejected | backend/foodgram/recipes/validators.py:10-16 | one character outside the class anywhere in the string causes rejection |
| RecipeValidators.NamedCharactersOutside | backend/foodgram/recipes/validators.py:11-15 | each of `$%^&#:;!`, and also Ё and ё, lies outside the class |
| RecipeValidators.ConcatAccepted | backend/foodgram/recipes/validators.py:10-13 | the concatenation of two accepted names is accepted |
| UserValidators.RejectionMessage | backend/foodgram/users/validators.py:7-9 | the error text embeds the rejected value verbatim after "Имя " |
| UserValidators.ValidateUsernameNotMe | backend/foodgram/users/validators.py:6-9 | fails exactly for "me", "Me", "mE" and "ME", with the message naming the value |
| UserValidators.LowerIsMe | backend/foodgram/users/validators.py:6 | a value lowers to "me" exactly when it is one of the four case spellings of "me" |
| UserValidators.NearMissesPass | backend/foodgram/users/validators.py:6-9 | " me" and "mee" pass (no trimming); "ME" is refused with "Имя ME запрещено для регистрации!" |
| ApiValidators.ElementSetSize | backend/foodgram/api/validators.py:13 | `len(set(xs)) <= len(xs)`, with equality exactly when no value repeats |
| ApiValidators.SizesDifferIff | backend/foodgram/api/validators.py:35 | the size comparison the source uses detects exactly the lists with a repeated value |
| ApiValidators.FirstUnknown | backend/foodgram/api/validators.py:17-23 | the lookup loop reports nothing when every id exists; otherwise it reports the first id, in list order, that is not a stored tag |
| ApiValidators.ValidateTags | backend/foodgram/api/validators.py:5-23 | `None` fails with "no tags"; a repeat fails next; it passes exactly for a repeat-free list of existing ids; on a repeat-free list, the error names the first id, in list order, that is not a stored tag |
| ApiValidators.EmptyTagListPasses | backend/foodgram/api/validators.py:9-23 | an empty tag list passes |
| ApiValidators.FirstUnknownReported | backend/foodgram/api/validators.py:17-23 | of two unknown ids, the earlier one is reported |
| ApiValidators.EntryIds | backend/foodgram/api/validators.py:34 | the comprehension of `.get('id')`, entry by entry |
| ApiValidators.ValidateIngredients | backend/foodgram/api/validators.py:26-45 | `None` fails first, then repeated ids; on repeat-free ids, an amount that is not a number raises the conversion error, and otherwise an amount below 1 fails with the minimum message; it passes exactly for repeat-free ids whose amounts are all numbers of at least 1 |
| ApiValidators.RepeatsBeforeAmounts | backend/foodgram/api/validators.py:34-45 | a repeated id together with a zero amount reports the repeat |
| ApiValidators.NoUpperBound | backend/foodgram/api/validators.py:39-45 | an amount of 1000000 passes this validator |
| ApiPermissions.AuthorOrAdminOrReadOnlyHasPermission | backend/foodgram/api/permissions.py:13-16 | safe methods are always allowed; other methods only for an authenticated user |
| ApiPermissions.AuthorOrAdminOrReadOnlyHasObjectPermission | backend/foodgram/api/permissions.py:22-27 | safe methods are always allowed; otherwise the user must be the author, a moderator or an admin |
| ApiPermissions.AdminHasPermission | backend/foodgram/api/permissions.py:35-38 | allowed only for an authenticated admin |
| ApiPermissions.AdminIgnoresMethod | backend/foodgram/api/permissions.py:35-38 | `IsAdmin` answers the same for every method |
| ApiPermissions.AdminOrReadOnlyHasPermission | backend/foodgram/api/permissions.py:45-49 | safe, or else exactly what `IsAdmin` allows (`and` binds tighter than `or`) |
| ApiPermissions.AnonymousWriteRefused | backend/foodgram/api/permissions.py:13-49 | an anonymous request with an unsafe method is refused by all three `has_permission` checks |
| ApiPermissions.AdminAllowedEverywhere | backend/foodgram/api/permissions.py:13-49 | an authenticated admin passes every check for every method and object |
| ApiPermissions.PermissionsNested | backend/foodgram/api/permissions.py:13-49 | `IsAdmin` implies `IsAdminOrReadOnly`, which implies `IsAuthorOrAdminOrReadOnly` |
| ApiPermissions.ReadersNeedNotBeAdmin | backend/foodgram/api/permissions.py:45-49 | a non-admin may GET, which the other grouping of the expression would refuse |
| QuerySets.Where | backend/foodgram/api/filters.py:36-37 | `filter`/`exclude`: keeps exactly the rows that satisfy the test, each no more often than in the input |
| QuerySets.WhereNoRepeats | backend/foodgram/api/filters.py:36-37 | filtering a list of distinct rows gives distinct rows |
| QuerySets.FilterIn | backend/foodgram/api/filters.py:36 | `filter(pk__in=ids)` keeps exactly the rows whose key is in `ids` |
| QuerySets.ExcludeIn | backend/foodgram/api/filters.py:37 | `exclude(pk__in=ids)` keeps exactly the rows whose key is not in `ids` |
| QuerySets.WhereCount | backend/foodgram/api/filters.py:36-37 | `filter`/`exclude` keep each row that passes the test exactly as often as the input holds it, and drop every other row |
| QuerySets.WhereKeepsOrder | backend/foodgram/api/filters.py:36-37 | the kept rows stay in the order the input had them |
| QuerySets.FilterInCount | backend/foodgram/api/filters.py:36 | `filter(pk__in=ids)` keeps a listed key as often as it occurs and drops the others |
| QuerySets.ExcludeInCount | backend/foodgram/api/filters.py:37 | `exclude(pk__in=ids)` keeps an unlisted key as often as it occurs and drops the listed ones |
| QuerySets.FilterExcludePartition | backend/foodgram/api/filters.py:35-37 | for one id set, `filter` and `exclude` split the input: the multisets add up to it and no row is in both |
| QuerySets.FilterAllIsIdentity | backend/foodgram/api/filters.py:36 | filtering by a set that holds every key returns the input unchanged |
| Relations.RemoveLink | backend/foodgram/api/utils.py:49 | deleting a pair removes exactly that pair from the table's set of pairs |
| Relations.AppendNoRepeats | backend/foodgram/api/utils.py:23 | inserting an absent pair keeps the table free of repeats |
| Relations.RemoveAppended | backend/foodgram/api/utils.py:14-53 | removing a pair that was just appended gives back the table as it was |
| Relations.RemoveExactlyOne | backend/foodgram/api/utils.py:43-49 | deleting a pair stored once removes exactly one row |
| Relations.RemoveAbsent | backend/foodgram/api/utils.py:42-48 | deleting an absent pair leaves the table unchanged |
| RecipeModels.CleanCookingTime | backend/foodgram/recipes/models.py:110-117 | passes exactly for cooking times in 1..32767: below 1 it fails with the declared minimum, above 32767 with the maximum Django adds to a `PositiveSmallIntegerField` on PostgreSQL (backend/foodgram/foodgram/settings.py:79) |
| RecipeModels.CleanAmount | backend/foodgram/recipes/models.py:165-173 | passes exactly for amounts in 1..2000; below 1 or above the limit, it fails with the bound that was crossed |
| RecipeModels.CleanName | backend/foodgram/recipes/models.py:17-24 | the character-class validator of a tag or ingredient name passes exactly for the names the class accepts; the `max_length` limit is a separate check, listed under "## Left out" |
| RecipeModels.DefaultsAreClean | backend/foodgram/recipes/models.py:110-117 | the defaults (cooking time 1, amount 1) pass their own validators |
| UserModels.CleanUsername | backend/foodgram/users/models.py:23-32 | the reserved-name validator refuses a username exactly when it lowers to "me"; the length limit and the character validator are separate checks, listed under "## Left out" |
| UserModels.SavedNames | backend/foodgram/users/models.py:55-61 | after `save`, both names keep their lengths, equal the given names up to case, start with a character that is not lower-case and have no later upper-case character; the email and username are unchanged |
| UserModels.SavedNamesIdempotent | backend/foodgram/users/models.py:59-60 | saving twice gives the same names as saving once |
| Store.Consistent | backend/foodgram/recipes/models.py:12-249 | every constraint of the models at once: the unique fields and unique pairs, the check forbidding self-subscription, the positive smallint columns, and the foreign keys |
| Store.PositiveSmallIntColumn | backend/foodgram/recipes/models.py:110-117 | a `PositiveSmallIntegerField` column takes exactly the values 0..32767; a value outside the smallint range is a data error, and a negative one breaks the column's check constraint |
| Store.GetOrCreateRow | backend/foodgram/api/utils.py:23 | `get_or_create` on a relation table: "fetched" exactly when the pair is stored; unless a row is created, the database is unchanged |
| Store.DeleteRow | backend/foodgram/api/utils.py:43-49 | `get` then `delete()` of one pair: afterwards the pair is not stored, and the other relation tables are unchanged |
| Store.InsertTagRow | backend/foodgram/recipes/models.py:31-36 | a refused tag insert changes nothing; an accepted one stores the tag under the returned key |
| Store.InsertIngredientRow | backend/foodgram/recipes/models.py:69-77 | a refused ingredient insert changes nothing; an accepted one stores the ingredient under the returned key |
| Store.InsertRecipeRow | backend/foodgram/recipes/models.py:91-117 | a refused recipe insert changes nothing; an accepted one has a cooking time that fits its column and stores the recipe under the returned key |
| Store.AddRecipeTagRow | backend/foodgram/recipes/models.py:129-134 | a refused `tags.add` changes nothing; an accepted one leaves the pair stored |
| Store.InsertAmountRow | backend/foodgram/recipes/models.py:156-173 | a refused ingredient line changes nothing; an accepted one has an amount that fits its column and is stored |
| Store.PersistUserRow | backend/foodgram/users/models.py:17-32 | a refused user write changes nothing; an accepted one stores the row under the returned key |
| Store.DeleteRecipeRows | backend/foodgram/recipes/models.py:156-237 | the recipe delete removes exactly that recipe from the recipe table |
| Store.DeleteIngredientRow | backend/foodgram/recipes/models.py:161-164 | a refused ingredient delete changes nothing; an accepted one removes the ingredient |
| Store.DeleteUserRows | backend/foodgram/users/models.py:75-87 | the user delete removes exactly that user from the user table |
| Store.GetOrCreateRowSound | backend/foodgram/api/utils.py:23 | `get_or_create` keeps every constraint; it reports "fetched" exactly when the pair was stored; otherwise it appends exactly that pair or changes nothing |
| Store.DeleteRowSound | backend/foodgram/api/utils.py:43-49 | deleting a pair keeps every constraint and removes exactly that pair; an absent pair changes nothing |
| Store.InsertTagSound | backend/foodgram/recipes/models.py:31-36 | a tag is stored under a fresh key unless its slug is taken, in which case nothing changes; no other table and no other tag changes |
| Store.InsertIngredientSound | backend/foodgram/recipes/models.py:72-77 | an ingredient is stored unless the same (name, unit) pair exists, in which case nothing changes; no other table changes |
| Store.InsertRecipeSound | backend/foodgram/recipes/models.py:91-117 | a recipe is stored under a fresh key unless its cooking time does not fit the positive smallint column, its author is missing or its name is taken; a cooking time outside the smallint range is a data error; a refused insert changes nothing; no other table changes |
| Store.AddRecipeTagSound | backend/foodgram/recipes/models.py:129-134 | tagging a recipe adds the pair once; a repeat changes nothing; a missing recipe or tag is refused; no other table changes |
| Store.InsertAmountSound | backend/foodgram/recipes/models.py:156-173 | an ingredient line is appended as given unless its amount does not fit the positive smallint column or one of its keys is missing; an amount outside the smallint range is a data error; a refused insert changes nothing; no other table changes |
| Store.RepeatedIngredientLineAccepted | backend/foodgram/recipes/models.py:175-177 | the same ingredient line (an amount that fits its column, both keys stored) can be stored twice for one recipe and the database stays consistent |
| Store.PersistUserSound | backend/foodgram/users/models.py:17-32 | a user row is written under its key, or under a fresh key, unless another user has the same email or username, in which case nothing changes; no other table changes |
| Store.AuthoredBy | backend/foodgram/recipes/models.py:91-96 | the keys of exactly the recipes written by the user |
| Store.DeleteRecipeSound | backend/foodgram/recipes/models.py:156-237 | deleting a recipe keeps every constraint; the recipe is the only one removed; no ingredient line, tag link, favourite or cart row still names it; every such row naming another recipe stays; users, subscriptions, tags and ingredients are unchanged |
| Store.DeleteIngredientSound | backend/foodgram/recipes/models.py:161-164 | deleting an ingredient still named by an ingredient line is refused (PROTECT) with nothing changed; otherwise exactly that ingredient is gone and no other table changes |
| Store.DeleteUserSound | backend/foodgram/users/models.py:75-87 | deleting a user keeps every constraint; the user and exactly their recipes are removed; no subscription, favourite, cart row or recipe still names them; every subscription, favourite, cart row, tag link and ingredient line that names neither the user nor one of their recipes stays; tags and ingredients are unchanged |
| Store.DeleteUserKeepsForeignKeys | backend/foodgram/users/models.py:75-87 | after the cascade, every remaining foreign key names a stored row |
| Store.Database.Exists | backend/foodgram/api/utils.py:43 | `get` finds the pair exactly when it is stored |
| Store.Database.GetOrCreate | backend/foodgram/api/utils.py:23 | the in-place `get_or_create`: the new state and the result are those of the row function |
| Store.Database.Delete | backend/foodgram/api/utils.py:49 | the in-place `delete()` of one pair |
| Store.Database.InsertTag | backend/foodgram/recipes/models.py:31-36 | the in-place tag insert |
| Store.Database.InsertIngredient | backend/foodgram/recipes/models.py:72-77 | the in-place ingredient insert |
| Store.Database.InsertRecipe | backend/foodgram/recipes/models.py:91-117 | the in-place recipe insert: its new state and result are those of `InsertRecipeRow`, column range included |
| Store.Database.AddRecipeTag | backend/foodgram/recipes/models.py:129-134 | the in-place tag link |
| Store.Database.InsertAmount | backend/foodgram/recipes/models.py:156-173 | the in-place ingredient line insert: its new state and result are those of `InsertAmountRow`, column range included |
| Store.Database.PersistUser | backend/foodgram/users/models.py:61 | the in-place user write that `super().save()` performs |
| Store.Database.DeleteRecipe | backend/foodgram/recipes/models.py:156-237 | the in-place cascading recipe delete |
| Store.Database.DeleteIngredient | backend/foodgram/recipes/models.py:161-164 | the in-place ingredient delete, refused while the ingredient is referenced |
| Store.Database.DeleteUser | backend/foodgram/users/models.py:75-87 | the in-place cascading user delete |
| Store.User.Save | backend/foodgram/users/models.py:55-61 | capitalises both names on the object; then writes the row; then the object's key is the stored key, or unchanged when the write is refused |
| Store.SaveStoresCapitalizedNames | backend/foodgram/users/models.py:55-61 | the stored row holds the capitalised names and the email and username as given |
| Store.SaveTwiceSameNames | backend/foodgram/users/models.py:59-60 | saving a saved user again writes the same row and changes nothing |
| ApiFilters.UserRecipeIds | backend/foodgram/api/filters.py:32-34 | the recipe keys of exactly the user's rows; none for a user without a key |
| ApiFilters.ByMembership | backend/foodgram/api/filters.py:35-37 | a true flag keeps exactly the rows in the id set; a false flag keeps exactly the others |
| ApiFilters.GetIsFavorited | backend/foodgram/api/filters.py:28-37 | keeps exactly the input recipes that are (or, for false, are not) favourites of the user |
| ApiFilters.GetIsInShoppingCart | backend/foodgram/api/filters.py:39-48 | keeps exactly the input recipes that are (or, for false, are not) in the user's cart |
| ApiFilters.ByMembershipPartition | backend/foodgram/api/filters.py:35-37 | the true and false results are disjoint, and together they make up the input |
| ApiFilters.FavoritedPartition | backend/foodgram/api/filters.py:28-37 | `is_favorited` true and false together make up the input |
| ApiFilters.InShoppingCartPartition | backend/foodgram/api/filters.py:39-48 | `is_in_shopping_cart` true and false together make up the input |
| ApiFilters.ByMembershipNoRepeats | backend/foodgram/api/filters.py:35-37 | either flag keeps a list of distinct recipes distinct |
| ApiFilters.ByAuthor | backend/foodgram/api/filters.py:13-15 | keeps exactly the input recipes written by the author |
| ApiFilters.TaggedWith | backend/foodgram/api/filters.py:22-26 | exactly the recipes with a tag whose slug (not key) is listed |
| ApiFilters.TagsFilter | backend/foodgram/api/filters.py:22-26 | an empty slug list returns the input; otherwise it keeps exactly the input recipes with a listed slug |
| ApiFilters.TagsFilterNoRepeats | backend/foodgram/api/filters.py:22-26 | the tag filter lists each recipe at most once |
| ApiFilters.FirstUnknownSlug | backend/foodgram/api/filters.py:22-26 | nothing exactly when every slug names a tag; otherwise a listed slug that names none (the model picks the first in list order) |
| ApiFilters.FormErrors | backend/foodgram/api/filters.py:13-26 | no errors exactly when the author is a stored user (or absent) and every slug names a tag; an unknown author is the first error |
| ApiFilters.FilterQueryset | backend/foodgram/api/filters.py:9-48 | an invalid form is refused with its errors; otherwise the result is a sub-multiset of the input |
| ApiFilters.FilterQuerysetMatches | backend/foodgram/api/filters.py:9-48 | a valid query keeps exactly the input recipes that match every supplied value |
| ApiFilters.FilterQuerysetNoRepeats | backend/foodgram/api/filters.py:9-48 | on distinct input, a valid query gives distinct output |
| ApiUtils.CreateRequest | backend/foodgram/api/utils.py:14-33 | `create_request_obj` answers 201, 400, or a server error when the database refuses the row; every answer but 201 leaves the database unchanged |
| ApiUtils.DeleteRequest | backend/foodgram/api/utils.py:35-53 | `delete_request_obj` answers 204 or 400 (never 404); a 400 leaves the database unchanged |
| ApiUtils.CreateRequestSound | backend/foodgram/api/utils.py:14-33 | 201 with the serialised object exactly when the pair was absent and may be stored, and then exactly that row is added; 400 with the repeat message exactly when it was stored, and then nothing changes; other tables are untouched |
| ApiUtils.DeleteRequestSound | backend/foodgram/api/utils.py:35-53 | 204 with the success message exactly when the pair was stored, and then one row goes; otherwise 400 (not 404) with the not-found message and nothing changes |
| ApiUtils.CreateThenDeleteRestores | backend/foodgram/api/utils.py:14-53 | a successful add followed by a delete of the same pair gives back the original database and answers 204 |
| ApiUtils.SecondCreateRefused | backend/foodgram/api/utils.py:23-28 | after an add, a second add answers 400 with the repeat message and changes nothing |
| ApiUtils.SecondDeleteRefused | backend/foodgram/api/utils.py:42-48 | after a delete, a second delete answers 400 and changes nothing |
| ApiUtils.CreateRequestObj | backend/foodgram/api/utils.py:14-33 | `create_request_obj` applied to the database in place |
| ApiUtils.DeleteRequestObj | backend/foodgram/api/utils.py:35-53 | `delete_request_obj` applied to the database in place |
| ApiViews.Subscribe | backend/foodgram/api/views.py:53-102 | `subscribe` answers 201, 204, 400, 404, or a server error when the database refuses the row; every answer but 201 and 204 leaves the database unchanged |
| ApiViews.SubscribeSound | backend/foodgram/api/views.py:53-102 | for a stored user: 404 exactly for an unknown publisher; following oneself is 400 with nothing changed; 201 adds exactly the new pair; 204 removes a stored pair; every other answer changes nothing; there is never a 500; only subscriptions change |
| ApiViews.SubscribeAction | backend/foodgram/api/views.py:53-102 | the `subscribe` action applied to the database in place |
| ApiViews.UserSubscriptions | backend/foodgram/api/views.py:40-51 | exactly the publishers the user follows |
| ApiViews.SubscriptionsFollowSubscribe | backend/foodgram/api/views.py:40-102 | after `subscribe`, a 201 adds the publisher to the user's list and a 204 drops it; other answers, and other users' lists, leave the lists unchanged |
| ApiViews.Favorite | backend/foodgram/api/views.py:162-199 | `favorite` answers 201, 204, 400, 404, or a server error when the database refuses the row; every answer but 201 and 204 leaves the database unchanged |
| ApiViews.FavoriteSound | backend/foodgram/api/views.py:162-199 | for a stored user: 404 exactly for an unknown recipe; 201 and 400 on POST; 204 and 400 on DELETE, with the view's own texts; never a 500; only favourites change |
| ApiViews.FavoriteAction | backend/foodgram/api/views.py:162-199 | the `favorite` action applied to the database in place |
| ApiViews.JoinCount | backend/foodgram/api/views.py:157 | the join yields a row for recipe `x` exactly when one of its tags has a listed slug |
| ApiViews.TagJoin | backend/foodgram/api/views.py:155-157 | the tag step as written keeps exactly the recipes with a listed slug, possibly more than once each |
| ApiViews.TagJoinCount | backend/foodgram/api/views.py:157 | the join lists a recipe once per matching tag row for each time it is in the input: `m` occurrences with `j` matching tags give `m * j` |
| ApiViews.TagJoinRepeatsRecipe | backend/foodgram/api/views.py:155-157 | a recipe with both listed tags comes back twice from the join and once from the distinct filter, in a database that meets every constraint |
| ApiViews.RecipeViewset.constructor | backend/foodgram/api/views.py:134 | the field starts as the full recipe list |
| ApiViews.TagRows | backend/foodgram/api/views.py:155-157 | the number of rows the tag step makes of one row is positive exactly when the recipe passes the tag parameter, and is 1 when no slug is listed |
| ApiViews.RecipeViewset.GetQueryset | backend/foodgram/api/views.py:139-159 | an unknown author answers 404 and leaves the field alone; otherwise the field holds exactly the recipes matching the author, `is_favorited` ("1" or "0") and tag parameters, each as often as it was there times the number of its listed tags; without tags it never gains a row or a repeat |
| ApiViews.RecipeViewset.NarrowByAuthor | backend/foodgram/api/views.py:143-147 | keeps exactly the author's recipes, each as often as it was there, and no other |
| ApiViews.RecipeViewset.NarrowByFavorite | backend/foodgram/api/views.py:149-153 | "1" keeps the user's favourites, "0" drops them, and any other value keeps everything; a kept recipe stays as often as it was there |
| ApiViews.RecipeViewset.NarrowByTags | backend/foodgram/api/views.py:155-157 | the join as written: a non-empty slug list keeps exactly the recipes with a listed tag, each repeated once per listed tag it has; an empty list changes nothing |

## Left out

- HTTP, token authentication, serializers and pagination are not modelled.
  - A response is a status code and a body. `Serialized(obj)` stands for the serializer's output.
  - The `me` action, the tag and ingredient list views, and routing are not modelled.
  - Methods other than POST and DELETE on the actions are refused by the router and are not modelled.
- The request user of `subscribe` and `favorite` is a stored user. Anonymous writes are refused before either action runs: for `favorite` by the default permission class (backend/foodgram/foodgram/settings.py:144-146), and for `subscribe` by the permission classes of djoser's `UserViewSet`, which are not part of this model.
- `is_admin` and `is_moderator` are not defined on the user model; they are given flags here. The REST framework's `SAFE_METHODS` tuple is modelled as a set of the three method names.
- Text handling is partial.
  - Letter case is modelled only for ASCII Latin and Cyrillic U+0400..U+045F; other characters are case-less.
  - Python's title case of the first character (e.g. for digraphs) is not modelled.
- Field lengths are not modelled: the `max_length` limits of 150, 200 and 254 characters.
- Integer columns are modelled only where the code writes them: `cooking_time` and `amount` are positive smallint columns on PostgreSQL (backend/foodgram/foodgram/settings.py:79). Key columns are unbounded.
- Several field validators are not modelled: the slug format, the colour format, the e-mail format, and the username character validator.
- The name validator of the recipe author key (backend/foodgram/recipes/models.py:91-98) is not modelled; it would run on a user key, not on a name.
- The first- and last-name validator `validate_name` is imported in users/models.py but defined nowhere, so it is not modelled.
- The data model has these gaps:
  - `Recipe.pub_date` and the list orderings (by publication date, by username, and subscriptions by publisher) are not modelled.
  - Keys come from one shared counter, not from one sequence per table.
- Store.Database.Commit writes every table at once. It stands for the transaction of a cascading delete.
- ApiValidators.ValidateIngredients: an amount is taken as already converted by `int()`. The truncation of a float by `int()` is not modelled, and a value `int()` rejects is a separate outcome (an exception, not a validation error).
- ApiViews.RecipeViewset.GetQueryset:
  - The `author` parameter is taken as already a number. A non-numeric value makes the key lookup raise, and that is not modelled.
  - The lookup `favorite_list__user` (backend/foodgram/api/views.py:151) names no relation of the models. The model gives it the intended meaning: the user's favourite rows.
  - An anonymous user has no key and matches no favourite row.
- `RecipesFilter` is not attached to any view. It is modelled on its own, with its query values already parsed (the text-to-boolean parsing is not modelled).
  - ApiFilters.FormErrors reports the author error and then one unknown slug. The form's full error dictionary is not modelled.
  - ApiFilters.FirstUnknownSlug names the first unknown slug in list order. The form checks the slugs as an unordered set, so which unknown slug it names is not fixed.
- ApiViews.UserSubscriptions returns the set of followed publishers, not the subscription rows ordered by publisher.
- The `shopping_cart` action is a stub in the source. The shopping-list aggregation does not exist in it. The toggle on the cart table is modelled through the generic `create_request_obj`/`delete_request_obj` with the cart messages.
- Concurrent requests, and two `get_or_create` calls racing on one pair, are not modelled.
- Management commands, migrations, admin and URL configuration are not modelled.

## Findings

| source | as written | input that shows it | evidently intended | confidence | as-written member | corrected member |
|---|---|---|---|---|---|---|
| backend/foodgram/api/views.py:155-157 | `filter(tags__slug__in=tags)` joins the tag table without `distinct()`, so a recipe appears once per listed tag it carries | recipe 7 tagged `breakfast` and `lunch`, queried with `?tags=breakfast&tags=lunch`, is listed as [7, 7] | each matching recipe listed once, as the filter set's tag filter does (`get_queryset` itself is modelled as written) | medium, not executed | ApiViews.TagJoin | ApiFilters.TagsFilter |
