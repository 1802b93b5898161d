/**
 * Checks of the tag-id list and the ingredient list of a recipe payload.
 * Each check raises on the first failure, in source order.
 */
module ApiValidators {
  import opened Base
  import opened QuerySets
  import Text

  lemma {:induction false} ElementSetSize<T>(xs: seq<T>)
    ensures |ElementSet(xs)| <= |xs|
    ensures |ElementSet(xs)| == |xs| <==> NoRepeats(xs)
  {
    if xs != [] {
      var rest := xs[1..];
      ElementSetSize(rest);
      assert ElementSet(xs) == {xs[0]} + ElementSet(rest);
      if xs[0] in rest {
        assert ElementSet(xs) == ElementSet(rest);
        var j :| 0 <= j < |rest| && rest[j] == xs[0];
        assert xs[0] == xs[j + 1];
      } else {
        assert |ElementSet(xs)| == |ElementSet(rest)| + 1;
        if NoRepeats(rest) {
          forall i, j | 0 <= i < j < |xs| ensures xs[i] != xs[j] {
            if i > 0 { assert xs[i] == rest[i - 1] && xs[j] == rest[j - 1]; }
            else { assert xs[j] == rest[j - 1]; }
          }
        }
        if NoRepeats(xs) {
          forall i, j | 0 <= i < j < |rest| ensures rest[i] != rest[j] {
            assert rest[i] == xs[i + 1] && rest[j] == xs[j + 1];
          }
        }
      }
    }
  }

  /** `len(set(xs)) != len(xs)`, the test the source uses for repeats. */
  predicate SizesDiffer<T(==)>(xs: seq<T>) {
    |ElementSet(xs)| != |xs|
  }

  lemma SizesDifferIff<T>(xs: seq<T>)
    ensures SizesDiffer(xs) <==> !NoRepeats(xs)
  {
    ElementSetSize(xs);
  }

  // ---- tags -------------------------------------------------------------

  datatype TagsError = NoTags | RepeatedTags | UnknownTag(id: int)

  function TagsMessage(e: TagsError): string {
    match e
    case NoTags => "Не выбраны теги для рецепта!"
    case RepeatedTags => "Теги не должны повторяться!"
    case UnknownTag(id) => "Тега с id " + Text.IntToString(id) + " не существует!"
  }

  /** The lookup loop: the first id, in list order, that is not a stored tag. */
  function FirstUnknown(ids: seq<int>, existing: set<int>): (r: Option<int>)
    ensures r.None? <==> forall i :: 0 <= i < |ids| ==> ids[i] in existing
    ensures r.Some? ==> exists k :: 0 <= k < |ids| && ids[k] == r.value && r.value !in existing
                                   && forall i :: 0 <= i < k ==> ids[i] in existing
  {
    if ids == [] then None
    else if ids[0] !in existing then Some(ids[0])
    else
      var r := FirstUnknown(ids[1..], existing);
      FirstUnknownShift(ids, existing, r);
      r
  }

  lemma FirstUnknownShift(ids: seq<int>, existing: set<int>, r: Option<int>)
    requires |ids| > 0 && ids[0] in existing
    requires r.Some? ==> exists k :: 0 <= k < |ids| - 1 && ids[1..][k] == r.value && r.value !in existing
                                   && forall i :: 0 <= i < k ==> ids[1..][i] in existing
    ensures r.Some? ==> exists k :: 0 <= k < |ids| && ids[k] == r.value && r.value !in existing
                                   && forall i :: 0 <= i < k ==> ids[i] in existing
  {
    if r.Some? {
      var k :| 0 <= k < |ids| - 1 && ids[1..][k] == r.value && r.value !in existing
               && forall i :: 0 <= i < k ==> ids[1..][i] in existing;
      assert forall i :: 0 <= i < k + 1 ==> ids[i] in existing by {
        forall i | 0 <= i < k + 1 ensures ids[i] in existing {
          if i > 0 { assert ids[i] == ids[1..][i - 1]; }
        }
      }
      assert ids[k + 1] == r.value;
    }
  }

  /**
   * `validate_tags(tags_ids)`, with the stored tag ids as `existing`.
   * A missing list fails; an empty list passes.
   */
  function ValidateTags(tagsIds: Option<seq<int>>, existing: set<int>): (r: Outcome<TagsError>)
    ensures tagsIds.None? ==> r == Fail(NoTags)
    ensures tagsIds.Some? && !NoRepeats(tagsIds.value) ==> r == Fail(RepeatedTags)
    ensures r == Pass <==> tagsIds.Some? && NoRepeats(tagsIds.value)
                           && forall i :: 0 <= i < |tagsIds.value| ==> tagsIds.value[i] in existing
    ensures r.Fail? && r.error.UnknownTag? ==> r.error.id in tagsIds.value && r.error.id !in existing
    ensures tagsIds.Some? && NoRepeats(tagsIds.value) && FirstUnknown(tagsIds.value, existing).Some?
            ==> r == Fail(UnknownTag(FirstUnknown(tagsIds.value, existing).value))
  {
    match tagsIds
    case None => Fail(NoTags)
    case Some(ids) =>
      SizesDifferIff(ids);
      if SizesDiffer(ids) then Fail(RepeatedTags)
      else
        match FirstUnknown(ids, existing)
        case Some(id) => Fail(UnknownTag(id))
        case None => Pass
  }

  lemma EmptyTagListPasses(existing: set<int>)
    ensures ValidateTags(Some([]), existing) == Pass
  {
  }

  /** Of two unknown ids, the one earlier in the list is reported. */
  lemma FirstUnknownReported(a: int, b: int, existing: set<int>)
    requires a != b && a !in existing && b !in existing
    ensures ValidateTags(Some([a, b]), existing) == Fail(UnknownTag(a))
  {
    assert ElementSet([a, b]) == {a, b};
    assert FirstUnknown([a, b], existing) == Some(a);
  }

  // ---- ingredients ------------------------------------------------------

  /**
   * One ingredient entry of the payload. `id` is `None` when the key is absent
   * (`.get('id')`); `amount` is `None` when `int(amount)` cannot convert it.
   */
  datatype IngredientEntry = IngredientEntry(id: Option<int>, amount: Option<int>)

  /**
   * `AmountNotNumber` is the exception `int()` raises; it is not a validation
   * error and escapes the validator.
   */
  datatype IngredientsError = NoIngredients | RepeatedIngredients | AmountNotNumber | AmountBelowOne

  function IngredientsMessage(e: IngredientsError): string
    requires !e.AmountNotNumber?
  {
    match e
    case NoIngredients => "Необходим хотя бы один ингредиент!"
    case RepeatedIngredients => "Ингридиенты должны иметь уникальный id!"
    case AmountBelowOne => "Минимальное количество ингридиента = 1!"
  }

  function EntryIds(entries: seq<IngredientEntry>): (ids: seq<Option<int>>)
    ensures |ids| == |entries| && forall i :: 0 <= i < |entries| ==> ids[i] == entries[i].id
  {
    seq(|entries|, i requires 0 <= i < |entries| => entries[i].id)
  }

  /**
   * `validate_ingredients(ingredients)`: a missing list, then repeated ids,
   * then the amounts, all of which are converted before any is compared.
   */
  function ValidateIngredients(ingredients: Option<seq<IngredientEntry>>): (r: Outcome<IngredientsError>)
    ensures ingredients.None? ==> r == Fail(NoIngredients)
    ensures ingredients.Some? && !NoRepeats(EntryIds(ingredients.value)) ==> r == Fail(RepeatedIngredients)
    ensures r == Pass <==> ingredients.Some? && NoRepeats(EntryIds(ingredients.value))
                           && forall e :: e in ingredients.value ==> e.amount.Some? && e.amount.value >= 1
    ensures ingredients.Some? && NoRepeats(EntryIds(ingredients.value))
            && (exists e :: e in ingredients.value && e.amount.None?)
            ==> r == Fail(AmountNotNumber)
    ensures ingredients.Some? && NoRepeats(EntryIds(ingredients.value))
            && (forall e :: e in ingredients.value ==> e.amount.Some?)
            && (exists e :: e in ingredients.value && e.amount.value < 1)
            ==> r == Fail(AmountBelowOne)
  {
    match ingredients
    case None => Fail(NoIngredients)
    case Some(entries) =>
      var ids := EntryIds(entries);
      SizesDifferIff(ids);
      if SizesDiffer(ids) then Fail(RepeatedIngredients)
      else if exists e :: e in entries && e.amount.None? then Fail(AmountNotNumber)
      else if exists e :: e in entries && e.amount.value <= 0 then Fail(AmountBelowOne)
      else Pass
  }

  /** A repeated id is reported even when an amount is also zero: repeats are checked first. */
  lemma RepeatsBeforeAmounts(id: int)
    ensures ValidateIngredients(Some([IngredientEntry(Some(id), Some(0)), IngredientEntry(Some(id), Some(5))]))
         == Fail(RepeatedIngredients)
  {
    var ids := EntryIds([IngredientEntry(Some(id), Some(0)), IngredientEntry(Some(id), Some(5))]);
    assert ids[0] == ids[1];
  }

  /** No upper bound here: an amount far above the model's limit passes. */
  lemma NoUpperBound(id: int)
    ensures ValidateIngredients(Some([IngredientEntry(Some(id), Some(1000000))])) == Pass
  {
  }
}
