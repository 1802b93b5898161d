/**
 * Row shapes of the recipe tables, their uniqueness constraints, and the
 * field validators (which run when a row is cleaned, not when it is saved).
 * A recipe's tags and the favourite and cart rows are `Relations.Link` rows.
 */
module RecipeModels {
  import opened Base
  import Settings
  import RecipeValidators

  datatype Tag = Tag(name: string, color: string, slug: string)

  const DefaultTagColor := "#FF0000"

  datatype Ingredient = Ingredient(name: string, measurementUnit: string)

  /** A recipe row; `author` is a user key. The publication timestamp is not modelled. */
  datatype Recipe = Recipe(author: int, name: string, text: string, cookingTime: int, image: string)

  const DefaultCookingTime := 1

  /** One ingredient line of a recipe. Nothing stops a recipe from listing an ingredient twice. */
  datatype IngredientAmount = IngredientAmount(recipe: int, ingredient: int, amount: int)

  const DefaultAmount := 1

  /** `Tag.slug` is unique. */
  predicate UniqueSlugs(tags: map<int, Tag>) {
    forall a, b :: a in tags && b in tags && tags[a].slug == tags[b].slug ==> a == b
  }

  /** The constraint `unique_ingredient` on (name, measurement_unit). */
  predicate UniqueIngredients(ingredients: map<int, Ingredient>) {
    forall a, b :: a in ingredients && b in ingredients && ingredients[a] == ingredients[b] ==> a == b
  }

  /** `Recipe.name` is unique. */
  predicate UniqueRecipeNames(recipes: map<int, Recipe>) {
    forall a, b :: a in recipes && b in recipes && recipes[a].name == recipes[b].name ==> a == b
  }

  /** What a failing field validator reports. */
  datatype FieldError = BelowMinimum(limit: int) | AboveMaximum(limit: int) | InvalidName(message: string)

  /**
   * The validators of `Recipe.cooking_time`: the declared minimum of 1, and
   * the maximum of the smallint column, which Django adds to a
   * `PositiveSmallIntegerField` that declares no maximum of its own.
   */
  function CleanCookingTime(t: int): (r: Outcome<FieldError>)
    ensures r.Pass? <==> 1 <= t <= Settings.SmallIntMax
    ensures t < 1 ==> r == Fail(BelowMinimum(1))
    ensures t > Settings.SmallIntMax ==> r == Fail(AboveMaximum(Settings.SmallIntMax))
  {
    if t < 1 then Fail(BelowMinimum(1))
    else if t > Settings.SmallIntMax then Fail(AboveMaximum(Settings.SmallIntMax))
    else Pass
  }

  /**
   * The validators of `IngredientAmount.amount`: between 1 and the configured
   * limit. The declared bounds lie inside the smallint range, so Django adds
   * no validator of its own.
   */
  function CleanAmount(a: int): (r: Outcome<FieldError>)
    ensures r.Pass? <==> 1 <= a <= Settings.LimitIngredientAmount
    ensures a < 1 ==> r == Fail(BelowMinimum(1))
    ensures a > Settings.LimitIngredientAmount ==> r == Fail(AboveMaximum(Settings.LimitIngredientAmount))
  {
    if a < 1 then Fail(BelowMinimum(1))
    else if a > Settings.LimitIngredientAmount then Fail(AboveMaximum(Settings.LimitIngredientAmount))
    else Pass
  }

  /** The validator of `Tag.name` and `Ingredient.name`: the name character class. */
  function CleanName(name: string): (r: Outcome<FieldError>)
    ensures r.Pass? <==> RecipeValidators.IsAllowedName(name)
  {
    match RecipeValidators.ValidateForNonpunctuationMarks(name)
    case Pass => Pass
    case Fail(m) => Fail(InvalidName(m))
  }

  /** The field defaults are themselves valid values. */
  lemma DefaultsAreClean()
    ensures CleanCookingTime(DefaultCookingTime) == Pass
    ensures CleanAmount(DefaultAmount) == Pass
  {
  }
}
