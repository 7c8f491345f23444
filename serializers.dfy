/**
 * The recipe serializers: the checks `RecipeCreateSerializer.validate` makes
 * on a request, the rows `create` and `update` write, and the read-only
 * lookups of `RecipeSerializer` and `SubscriptionSerializer`.
 */
module Serializers {
  import opened Wrappers
  import opened Text
  import opened Models

  // ---------------------------------------------------------------------------
  // RecipeCreateSerializer.validate
  // ---------------------------------------------------------------------------

  /** One element of the request's `ingredients` list; `.get()` yields None for a missing key. */
  datatype IngredientEntry = IngredientEntry(id: Option<IngredientId>, amount: Option<int>)

  /**
   * The request body as the serializer reads it: `name`, `cooking_time` and
   * `ingredients` straight from `initial_data`; `image` and `text` as field
   * validation passed them on.
   */
  datatype RecipeRequest = RecipeRequest(
    name: Option<string>,
    cookingTime: Option<int>,
    ingredients: Option<seq<IngredientEntry>>,
    image: Option<string>,
    text: Option<string>)

  /** `validated_data`: every key may be missing, as `update` allows for. */
  datatype RecipeData = RecipeData(
    name: Option<string>,
    text: Option<string>,
    image: Option<string>,
    cookingTime: Option<int>,
    ingredients: Option<seq<IngredientEntry>>)

  datatype ValidationError =
    | CookingTimeTooShort  // "cooking time must be at least 1 minute"
    | NoIngredients        // "add ingredients"
    | AmountNotPositive    // "the amount must be greater than 0"
    | DuplicateIngredient  // "you already listed this ingredient"
    | TypeMismatch         // Python's TypeError from comparing a missing value with a number

  /** `str(initial_data.get('name')).strip().capitalize()`; a missing name is the text "None". */
  function NormalizedName(name: Option<string>): string {
    Capitalize(Strip(name.GetOr("None")))
  }

  /** The ids of the entries, as the loop's `ingredients_set` collects them. */
  function IdsOf(es: seq<IngredientEntry>): set<Option<IngredientId>> {
    set i | 0 <= i < |es| :: es[i].id
  }

  /** The loop over the entries: the first entry with a missing or non-positive amount or an id already seen stops it. */
  function FirstFault(es: seq<IngredientEntry>, seen: set<Option<IngredientId>>): Option<ValidationError> {
    if es == [] then None
    else if es[0].amount.None? then Some(TypeMismatch)
    else if es[0].amount.value <= 0 then Some(AmountNotPositive)
    else if es[0].id in seen then Some(DuplicateIngredient)
    else FirstFault(es[1..], seen + {es[0].id})
  }

  /** What `validate` returns or raises for a request. */
  function Validation(req: RecipeRequest): Result<RecipeData, ValidationError> {
    if req.cookingTime.None? then Err(TypeMismatch)
    else if req.cookingTime.value < 1 then Err(CookingTimeTooShort)
    else if req.ingredients.None? || req.ingredients.value == [] then Err(NoIngredients)
    else match FirstFault(req.ingredients.value, {})
      case Some(e) => Err(e)
      case None => Ok(RecipeData(Some(NormalizedName(req.name)), req.text, req.image, req.cookingTime, req.ingredients))
  }

  /** `RecipeCreateSerializer.validate`: the checks in source order, with the seen-set loop. */
  method Validate(req: RecipeRequest) returns (result: Result<RecipeData, ValidationError>)
    ensures result == Validation(req)
  {
    var name := Strip(req.name.GetOr("None"));
    var cookingTime := req.cookingTime;
    if cookingTime.None? {
      return Err(TypeMismatch);
    }
    if cookingTime.value < 1 {
      return Err(CookingTimeTooShort);
    }
    var ingredients := req.ingredients;
    if ingredients.None? || ingredients.value == [] {
      return Err(NoIngredients);
    }
    var es := ingredients.value;
    var ingredientsSet: set<Option<IngredientId>> := {};
    for i := 0 to |es|
      invariant FirstFault(es, {}) == FirstFault(es[i..], ingredientsSet)
    {
      assert es[i..][1..] == es[i + 1..];
      var ingredient := es[i];
      if ingredient.amount.None? {
        return Err(TypeMismatch);
      }
      if ingredient.amount.value <= 0 {
        return Err(AmountNotPositive);
      }
      var id := ingredient.id;
      if id in ingredientsSet {
        return Err(DuplicateIngredient);
      }
      ingredientsSet := ingredientsSet + {id};
    }
    return Ok(RecipeData(Some(Capitalize(name)), req.text, req.image, cookingTime, ingredients));
  }

  /** Entries the validator lets through: every amount present and positive, no id twice. */
  predicate WellFormedEntries(es: seq<IngredientEntry>) {
    && (forall i :: 0 <= i < |es| ==> es[i].amount.Some? && es[i].amount.value > 0)
    && (forall i, j :: 0 <= i < j < |es| ==> es[i].id != es[j].id)
  }

  /** The fault, if any, of entry `i` given the ids seen before the loop and in the entries before it. */
  function EntryFault(es: seq<IngredientEntry>, seen: set<Option<IngredientId>>, i: nat): Option<ValidationError>
    requires i < |es|
  {
    if es[i].amount.None? then Some(TypeMismatch)
    else if es[i].amount.value <= 0 then Some(AmountNotPositive)
    else if es[i].id in seen + IdsOf(es[..i]) then Some(DuplicateIngredient)
    else None
  }

  lemma EntryFaultShift(es: seq<IngredientEntry>, seen: set<Option<IngredientId>>, i: nat)
    requires 0 < i < |es|
    ensures EntryFault(es, seen, i) == EntryFault(es[1..], seen + {es[0].id}, i - 1)
  {
    assert seen + IdsOf(es[..i]) == seen + {es[0].id} + IdsOf(es[1..][..i - 1]) by {
      assert es[..i][0] == es[0];
      forall x | x in IdsOf(es[..i]) ensures x in {es[0].id} + IdsOf(es[1..][..i - 1]) {
        var k :| 0 <= k < i && es[..i][k].id == x;
        if k > 0 {
          assert es[1..][..i - 1][k - 1] == es[k];
        }
      }
      forall x | x in IdsOf(es[1..][..i - 1]) ensures x in IdsOf(es[..i]) {
        var k :| 0 <= k < i - 1 && es[1..][..i - 1][k].id == x;
        assert es[..i][k + 1] == es[k + 1];
      }
    }
  }

  /** The loop passes when no entry is faulty. */
  lemma {:induction false} FirstFaultWhenClean(es: seq<IngredientEntry>, seen: set<Option<IngredientId>>)
    requires forall i :: 0 <= i < |es| ==> EntryFault(es, seen, i).None?
    ensures FirstFault(es, seen).None?
  {
    if es != [] {
      var seen' := seen + {es[0].id};
      assert IdsOf(es[..0]) == {};
      assert EntryFault(es, seen, 0).None?;
      forall i | 0 <= i < |es| - 1 ensures EntryFault(es[1..], seen', i).None? {
        EntryFaultShift(es, seen, i + 1);
      }
      FirstFaultWhenClean(es[1..], seen');
    }
  }

  /** The loop stops at the earliest faulty entry, with that entry's fault. */
  lemma {:induction false} FirstFaultAtEarliest(es: seq<IngredientEntry>, seen: set<Option<IngredientId>>, i: nat)
    requires i < |es| && EntryFault(es, seen, i).Some?
    requires forall j :: 0 <= j < i ==> EntryFault(es, seen, j).None?
    ensures FirstFault(es, seen) == EntryFault(es, seen, i)
  {
    assert IdsOf(es[..0]) == {};
    if i > 0 {
      var seen' := seen + {es[0].id};
      assert EntryFault(es, seen, 0).None?;
      EntryFaultShift(es, seen, i);
      forall j | 0 <= j < i - 1 ensures EntryFault(es[1..], seen', j).None? {
        EntryFaultShift(es, seen, j + 1);
      }
      FirstFaultAtEarliest(es[1..], seen', i - 1);
    }
  }

  /** With nothing seen before the loop, "no entry is faulty" is exactly `WellFormedEntries`. */
  lemma NoFaultIsWellFormed(es: seq<IngredientEntry>)
    ensures (forall i :: 0 <= i < |es| ==> EntryFault(es, {}, i).None?) <==> WellFormedEntries(es)
  {
    if forall i :: 0 <= i < |es| ==> EntryFault(es, {}, i).None? {
      forall i | 0 <= i < |es| ensures es[i].amount.Some? && es[i].amount.value > 0 {
        assert EntryFault(es, {}, i).None?;
      }
      forall i, j | 0 <= i < j < |es| ensures es[i].id != es[j].id {
        assert EntryFault(es, {}, j).None?;
        assert es[..j][i] == es[i];
        assert es[i].id in IdsOf(es[..j]);
      }
    } else {
      var j :| 0 <= j < |es| && EntryFault(es, {}, j).Some?;
      if es[j].amount.Some? && es[j].amount.value > 0 {
        assert es[j].id in IdsOf(es[..j]);
        var i :| 0 <= i < j && es[..j][i].id == es[j].id;
        assert es[i] == es[..j][i];
      }
    }
  }

  /**
   * `validate` accepts exactly the requests with a cooking time of at least 1
   * and a non-empty ingredient list of positive amounts and distinct ids; an
   * accepted request keeps its ingredient list and cooking time and gets the
   * stripped, capitalised name.
   */
  lemma ValidationAcceptsExactly(req: RecipeRequest)
    ensures Validation(req).Ok? <==>
      && req.cookingTime.Some? && req.cookingTime.value >= 1
      && req.ingredients.Some? && req.ingredients.value != []
      && WellFormedEntries(req.ingredients.value)
    ensures Validation(req).Ok? ==>
      && Validation(req).value.name == Some(NormalizedName(req.name))
      && Validation(req).value.ingredients == req.ingredients
      && Validation(req).value.cookingTime == req.cookingTime
      && Validation(req).value.text == req.text
      && Validation(req).value.image == req.image
  {
    if req.ingredients.Some? {
      var es := req.ingredients.value;
      NoFaultIsWellFormed(es);
      if WellFormedEntries(es) {
        FirstFaultWhenClean(es, {});
      } else {
        EarliestFaultExists(es, {});
        var i :| 0 <= i < |es| && EntryFault(es, {}, i).Some?
          && forall j :: 0 <= j < i ==> EntryFault(es, {}, j).None?;
        FirstFaultAtEarliest(es, {}, i);
      }
    }
  }

  lemma EarliestFaultExists(es: seq<IngredientEntry>, seen: set<Option<IngredientId>>)
    requires exists i :: 0 <= i < |es| && EntryFault(es, seen, i).Some?
    ensures exists i :: (0 <= i < |es| && EntryFault(es, seen, i).Some?
                         && forall j :: 0 <= j < i ==> EntryFault(es, seen, j).None?)
  {
    var i :| 0 <= i < |es| && EntryFault(es, seen, i).Some?;
    var k := 0;
    while EntryFault(es, seen, k).None?
      invariant 0 <= k <= i
      invariant forall j :: 0 <= j < k ==> EntryFault(es, seen, j).None?
      decreases i - k
    {
      k := k + 1;
    }
  }

  /** A rejected request is rejected for its first fault in source order: cooking time, then the list, then entry by entry. */
  lemma ValidationReportsFirstFault(req: RecipeRequest, i: nat)
    requires req.cookingTime.Some? && req.cookingTime.value >= 1 && req.ingredients.Some?
    requires i < |req.ingredients.value|
    requires EntryFault(req.ingredients.value, {}, i).Some?
    requires forall j :: 0 <= j < i ==> EntryFault(req.ingredients.value, {}, j).None?
    ensures Validation(req) == Err(EntryFault(req.ingredients.value, {}, i).value)
  {
    FirstFaultAtEarliest(req.ingredients.value, {}, i);
  }

  /** A cooking time below 1 is reported whatever the ingredients are. */
  lemma CookingTimeCheckedFirst(req: RecipeRequest)
    requires req.cookingTime.Some? && req.cookingTime.value < 1
    ensures Validation(req) == Err(CookingTimeTooShort)
  {
  }

  /** Validating an already validated name changes nothing. */
  lemma NormalizedNameIsStable(name: Option<string>)
    ensures NormalizedName(Some(NormalizedName(name))) == NormalizedName(name)
  {
    var s := Strip(name.GetOr("None"));
    StripIsIdempotent(name.GetOr("None"));
    CapitalizeStrippedIsFixedPoint(s);
  }

  // ---------------------------------------------------------------------------
  // RecipeSerializer.get_is_favourite / get_is_shopping_list
  // ---------------------------------------------------------------------------

  /**
   * Whether the requesting user has marked the recipe (favourite or shopping
   * list, depending on the table): false without a request or for an
   * anonymous user.
   */
  function MarkedBy(request: Option<Requester>, marks: set<Pair>, recipe: RecipeId): (marked: bool)
    ensures request.None? || request.value.Anonymous? ==> !marked
    ensures request.Some? && request.value.Authenticated? ==> (marked <==> Pair(request.value.user.id, recipe) in marks)
  {
    if request.None? || request.value.Anonymous? then false
    else Pair(request.value.user.id, recipe) in marks
  }

  // ---------------------------------------------------------------------------
  // SubscriptionSerializer.get_recipes / get_recipes_count
  // ---------------------------------------------------------------------------

  datatype SliceError = NegativeLimit  // Django refuses negative slicing of a queryset

  /** `Recipe.objects.filter(author=author)`, in the table's order. */
  function RecipesBy(recipes: seq<Recipe>, author: UserId): (r: seq<Recipe>)
    ensures forall x :: x in r <==> x in recipes && x.author == author
    ensures IsSubsequence(r, recipes)
  {
    if recipes == [] then []
    else if recipes[0].author == author then [recipes[0]] + RecipesBy(recipes[1..], author)
    else RecipesBy(recipes[1..], author)
  }

  /** `get_recipes_count`: how many recipes the author has. */
  function RecipesCount(recipes: seq<Recipe>, author: UserId): nat {
    if recipes == [] then 0
    else (if recipes[0].author == author then 1 else 0) + RecipesCount(recipes[1..], author)
  }

  /**
   * `get_recipes`; `limit` is None when `recipes_limit` is absent or empty and
   * otherwise the number it spells.
   */
  function GetRecipes(recipes: seq<Recipe>, author: UserId, limit: Option<int>): Result<seq<Recipe>, SliceError> {
    var all := RecipesBy(recipes, author);
    if limit.None? then Ok(all)
    else if limit.value < 0 then Err(NegativeLimit)
    else if limit.value < |all| then Ok(all[..limit.value])
    else Ok(all)
  }

  lemma {:induction false} RecipesByCount(recipes: seq<Recipe>, author: UserId)
    ensures |RecipesBy(recipes, author)| == RecipesCount(recipes, author)
  {
    if recipes != [] {
      RecipesByCount(recipes[1..], author);
    }
  }

  /**
   * The listed recipes are the author's, first ones first, as many as the
   * limit allows; without a limit they are all of them, as many as
   * `get_recipes_count` says.
   */
  lemma GetRecipesIsLimitedPrefix(recipes: seq<Recipe>, author: UserId, limit: Option<int>)
    ensures GetRecipes(recipes, author, limit).Err? <==> limit.Some? && limit.value < 0
    ensures GetRecipes(recipes, author, limit).Ok? ==>
      var r := GetRecipes(recipes, author, limit).value;
      && r <= RecipesBy(recipes, author)
      && (forall x :: x in r ==> x in recipes && x.author == author)
      && |r| == if limit.None? || limit.value > RecipesCount(recipes, author) then RecipesCount(recipes, author)
                else limit.value
  {
    RecipesByCount(recipes, author);
  }

  // ---------------------------------------------------------------------------
  // RecipeCreateSerializer.create / update, over the tables they write
  // ---------------------------------------------------------------------------

  datatype TagLink = TagLink(recipe: RecipeId, tag: TagId)

  datatype WriteError =
    | TagsMissing         // TypeError: the request has no `tags` list to iterate
    | TagNotFound         // 404 from get_object_or_404 on a tag
    | IngredientNotFound  // no ingredient with the entry's id

  function TagLinks(recipe: RecipeId, tagIds: seq<TagId>): set<TagLink> {
    set t | t in tagIds :: TagLink(recipe, t)
  }

  /** The links left after `recipe.tags.clear()`: those of every other recipe. */
  function LinksOfOtherRecipes(links: set<TagLink>, recipe: RecipeId): set<TagLink> {
    set l | l in links && l.recipe != recipe
  }

  /** How many tags in front are known: the loop links these and stops with a 404 at the next one, if any. */
  function FirstUnknownTag(tagIds: seq<TagId>, tags: set<TagId>): (k: nat)
    ensures k <= |tagIds|
    ensures forall i :: 0 <= i < k ==> tagIds[i] in tags
    ensures k < |tagIds| ==> tagIds[k] !in tags
  {
    if tagIds == [] || tagIds[0] !in tags then 0 else 1 + FirstUnknownTag(tagIds[1..], tags)
  }

  predicate KnownIngredients(es: seq<IngredientEntry>, catalogue: map<IngredientId, Ingredient>) {
    forall i :: 0 <= i < |es| ==> es[i].id.Some? && es[i].id.value in catalogue
  }

  /** The loop stops at `i` exactly when `KnownEntries` is `i`. */
  lemma KnownEntriesStopsAt(es: seq<IngredientEntry>, catalogue: map<IngredientId, Ingredient>, i: nat)
    requires i <= |es| && KnownIngredients(es[..i], catalogue)
    requires i < |es| ==> es[i].id.None? || es[i].id.value !in catalogue
    ensures KnownEntries(es, catalogue) == i
  {
  }

  /** How many entries in front name a known ingredient: the loop writes their rows and stops at the next one, if any. */
  function KnownEntries(es: seq<IngredientEntry>, catalogue: map<IngredientId, Ingredient>): (k: nat)
    ensures k <= |es|
    ensures KnownIngredients(es[..k], catalogue)
    ensures k < |es| ==> es[k].id.None? || es[k].id.value !in catalogue
  {
    if es == [] || es[0].id.None? || es[0].id.value !in catalogue then 0
    else
      var k := 1 + KnownEntries(es[1..], catalogue);
      assert forall i :: 1 <= i < k ==> es[..k][i] == es[1..][..k - 1][i - 1];
      k
  }

  predicate PositiveAmounts(es: seq<IngredientEntry>) {
    forall i :: 0 <= i < |es| ==> es[i].amount.Some? && es[i].amount.value > 0
  }

  /** The through-table rows written for the entries of one recipe, one per entry and in order. */
  function RowsFor(catalogue: map<IngredientId, Ingredient>, recipe: RecipeId, es: seq<IngredientEntry>): (rows: seq<IngredientForRecipe>)
    requires KnownIngredients(es, catalogue) && PositiveAmounts(es)
    ensures |rows| == |es|
    ensures forall i :: 0 <= i < |es| ==>
      rows[i] == IngredientForRecipe(catalogue[es[i].id.value], recipe, es[i].amount.value)
  {
    if es == [] then []
    else [IngredientForRecipe(catalogue[es[0].id.value], recipe, es[0].amount.value)] + RowsFor(catalogue, recipe, es[1..])
  }

  /** The rows of all other recipes (`recipe.ingredients.clear()`). */
  function LinesOfOtherRecipes(lines: seq<IngredientForRecipe>, recipe: RecipeId): (r: seq<IngredientForRecipe>)
    ensures forall x :: x in r <==> x in lines && x.recipe != recipe
    ensures UniqueIngredientPerRecipe(lines) ==> UniqueIngredientPerRecipe(r)
  {
    if lines == [] then []
    else
      var rest := LinesOfOtherRecipes(lines[1..], recipe);
      UniqueLinesCons(lines[0], lines[1..]);
      UniqueLinesCons(lines[0], rest);
      (if lines[0].recipe == recipe then [] else [lines[0]]) + rest
  }

  predicate Clash(a: IngredientForRecipe, b: IngredientForRecipe) {
    a.ingredient.id == b.ingredient.id && a.recipe == b.recipe
  }

  lemma UniqueLinesCons(x: IngredientForRecipe, rest: seq<IngredientForRecipe>)
    ensures UniqueIngredientPerRecipe([x] + rest) <==>
      (forall y :: y in rest ==> !Clash(x, y)) && UniqueIngredientPerRecipe(rest)
  {
    var r := [x] + rest;
    assert r[0] == x;
    if (forall y :: y in rest ==> !Clash(x, y)) && UniqueIngredientPerRecipe(rest) {
      forall i, j | 0 <= i < j < |r| ensures !Clash(r[i], r[j]) {
        assert r[j] == rest[j - 1];
        if i > 0 {
          assert r[i] == rest[i - 1];
        }
      }
    }
    if UniqueIngredientPerRecipe(r) {
      forall i, j | 0 <= i < j < |rest| ensures !Clash(rest[i], rest[j]) {
        assert rest[i] == r[i + 1] && rest[j] == r[j + 1];
      }
      forall y | y in rest ensures !Clash(x, y) {
        var j :| 0 <= j < |rest| && rest[j] == y;
        assert r[j + 1] == y;
      }
    }
  }

  lemma AppendLineKeepsUnique(lines: seq<IngredientForRecipe>, row: IngredientForRecipe)
    requires UniqueIngredientPerRecipe(lines)
    requires forall y :: y in lines ==> !Clash(y, row)
    ensures UniqueIngredientPerRecipe(lines + [row])
  {
    var r := lines + [row];
    forall i, j | 0 <= i < j < |r| ensures !Clash(r[i], r[j]) {
      assert r[i] == lines[i];
      if j < |lines| {
        assert r[j] == lines[j];
      }
    }
  }

  /**
   * The row for entry `i` clashes neither with the rows of other recipes nor
   * with the rows written for the entries before it, whose ids differ.
   */
  lemma NextRowDoesNotClash(
    before: seq<IngredientForRecipe>, catalogue: map<IngredientId, Ingredient>,
    recipe: RecipeId, es: seq<IngredientEntry>, i: nat)
    requires forall x :: x in before ==> x.recipe != recipe
    requires forall k :: k in catalogue ==> catalogue[k].id == k
    requires i < |es| && WellFormedEntries(es)
    requires KnownIngredients(es[..i + 1], catalogue)
    ensures KnownIngredients(es[..i], catalogue) && PositiveAmounts(es[..i])
    ensures var row := IngredientForRecipe(catalogue[es[i].id.value], recipe, es[i].amount.value);
      forall y :: y in before + RowsFor(catalogue, recipe, es[..i]) ==> !Clash(y, row)
  {
    assert es[..i + 1][i] == es[i];
    assert es[i].id.Some? && es[i].id.value in catalogue;
    forall j | 0 <= j < i ensures es[..i][j] == es[..i + 1][j] {
    }
    var row := IngredientForRecipe(catalogue[es[i].id.value], recipe, es[i].amount.value);
    var lines := before + RowsFor(catalogue, recipe, es[..i]);
    forall y | y in lines ensures !Clash(y, row) {
      var k :| 0 <= k < |lines| && lines[k] == y;
      if k < |before| {
        assert y == before[k] && y in before;
        assert y.recipe != row.recipe;
      } else {
        var m := k - |before|;
        assert y == RowsFor(catalogue, recipe, es[..i])[m];
        assert es[..i][m] == es[m];
        assert es[m].id.Some? && es[m].id.value in catalogue;
        assert y.ingredient == catalogue[es[m].id.value];
        assert y.ingredient.id == es[m].id.value;
        assert es[m].id != es[i].id;
        assert row.ingredient.id == es[i].id.value;
        assert y.ingredient.id != row.ingredient.id;
      }
    }
  }

  /** Merges the validated fields into the recipe; a missing key keeps the old value. */
  function Updated(recipe: Recipe, data: RecipeData): (r: Recipe)
    ensures r.id == recipe.id && r.author == recipe.author
    ensures r.name == data.name.GetOr(recipe.name) && r.text == data.text.GetOr(recipe.text)
    ensures r.image == data.image.GetOr(recipe.image) && r.cookingTime == data.cookingTime.GetOr(recipe.cookingTime)
  {
    recipe.(name := data.name.GetOr(recipe.name),
            text := data.text.GetOr(recipe.text),
            image := data.image.GetOr(recipe.image),
            cookingTime := data.cookingTime.GetOr(recipe.cookingTime))
  }

  /** The tables `create` and `update` write: recipes, their tag links and the recipe/ingredient through table. */
  class RecipeTables {
    var recipes: map<RecipeId, Recipe>
    var recipeTags: set<TagLink>
    var lines: seq<IngredientForRecipe>
    var nextId: RecipeId
    const tags: set<TagId>
    const catalogue: map<IngredientId, Ingredient>

    /**
     * Keys are fresh below `nextId`, cooking times and amounts are in the
     * validated range, rows point at stored recipes, and (ingredient, recipe)
     * is unique.
     */
    ghost predicate Valid()
      reads this
    {
      && (forall id :: id in recipes ==> id < nextId && recipes[id].id == id)
      && (forall id :: id in recipes ==> ValidCookingTime(recipes[id].cookingTime))
      && (forall k :: k in catalogue ==> catalogue[k].id == k)
      && (forall x :: x in lines ==> x.recipe in recipes && ValidAmount(x.amount))
      && UniqueIngredientPerRecipe(lines)
    }

    constructor (tags: set<TagId>, catalogue: map<IngredientId, Ingredient>)
      requires forall k :: k in catalogue ==> catalogue[k].id == k
      ensures Valid()
      ensures this.tags == tags && this.catalogue == catalogue
      ensures recipes == map[] && recipeTags == {} && lines == [] && nextId == 0
    {
      this.tags := tags;
      this.catalogue := catalogue;
      recipes := map[];
      recipeTags := {};
      lines := [];
      nextId := 0;
    }

    /** Adds the tags one by one; the first unknown tag stops with a 404 and keeps the links added so far. */
    method AddTags(recipe: RecipeId, tagIds: seq<TagId>) returns (ok: bool)
      modifies this`recipeTags
      ensures ok <==> forall t :: t in tagIds ==> t in tags
      ensures ok <==> FirstUnknownTag(tagIds, tags) == |tagIds|
      ensures ok ==> recipeTags == old(recipeTags) + TagLinks(recipe, tagIds)
      ensures recipeTags == old(recipeTags) + TagLinks(recipe, tagIds[..FirstUnknownTag(tagIds, tags)])
      ensures old(recipeTags) <= recipeTags <= old(recipeTags) + TagLinks(recipe, tagIds)
    {
      for i := 0 to |tagIds|
        invariant forall t :: t in tagIds[..i] ==> t in tags
        invariant recipeTags == old(recipeTags) + TagLinks(recipe, tagIds[..i])
      {
        if tagIds[i] !in tags {
          assert TagLinks(recipe, tagIds[..i]) <= TagLinks(recipe, tagIds);
          return false;
        }
        assert tagIds[..i + 1] == tagIds[..i] + [tagIds[i]];
        recipeTags := recipeTags + {TagLink(recipe, tagIds[i])};
      }
      assert tagIds[..|tagIds|] == tagIds;
      return true;
    }

    /**
     * Writes one through-table row per entry for a recipe that has none yet;
     * an unknown ingredient stops the loop, leaving the rows written so far.
     */
    method AddIngredients(recipe: RecipeId, es: seq<IngredientEntry>) returns (ok: bool)
      requires Valid() && recipe in recipes
      requires forall x :: x in lines ==> x.recipe != recipe
      requires PositiveAmounts(es) && WellFormedEntries(es)
      modifies this`lines
      ensures Valid()
      ensures ok <==> KnownIngredients(es, catalogue)
      ensures ok <==> KnownEntries(es, catalogue) == |es|
      ensures ok ==> lines == old(lines) + RowsFor(catalogue, recipe, es)
      ensures lines == old(lines) + RowsFor(catalogue, recipe, es[..KnownEntries(es, catalogue)])
      ensures old(lines) <= lines
      ensures forall i :: |old(lines)| <= i < |lines| ==> lines[i].recipe == recipe
    {
      for i := 0 to |es|
        invariant Valid()
        invariant KnownIngredients(es[..i], catalogue)
        invariant lines == old(lines) + RowsFor(catalogue, recipe, es[..i])
      {
        var id := es[i].id;
        if id.None? || id.value !in catalogue {
          KnownEntriesStopsAt(es, catalogue, i);
          return false;
        }
        var row := IngredientForRecipe(catalogue[id.value], recipe, es[i].amount.value);
        NextRowDoesNotClash(old(lines), catalogue, recipe, es, i);
        AppendLineKeepsUnique(lines, row);
        assert es[..i + 1] == es[..i] + [es[i]];
        lines := lines + [row];
      }
      assert es[..|es|] == es;
      KnownEntriesStopsAt(es, catalogue, |es|);
      return true;
    }

    /**
     * `create`: stores the recipe first, then links its tags, then writes one
     * row per ingredient entry. A failure part-way keeps what was written.
     */
    method Create(author: UserId, data: RecipeData, tagIds: Option<seq<TagId>>)
      returns (result: Result<RecipeId, WriteError>)
      requires Valid()
      requires data.name.Some? && data.text.Some? && data.image.Some? && data.cookingTime.Some?
      requires ValidCookingTime(data.cookingTime.value)
      requires data.ingredients.Some? && WellFormedEntries(data.ingredients.value)
      modifies this
      ensures Valid()
      ensures nextId == old(nextId) + 1
      ensures recipes == old(recipes)[old(nextId) :=
        Recipe(old(nextId), author, data.name.value, data.image.value, data.text.value, data.cookingTime.value)]
      ensures result == if tagIds.None? then Err(TagsMissing)
                        else if exists t :: t in tagIds.value && t !in tags then Err(TagNotFound)
                        else if !KnownIngredients(data.ingredients.value, catalogue) then Err(IngredientNotFound)
                        else Ok(old(nextId))
      ensures tagIds.None? ==> recipeTags == old(recipeTags)
      ensures tagIds.Some? ==> old(recipeTags) <= recipeTags <= old(recipeTags) + TagLinks(old(nextId), tagIds.value)
      ensures tagIds.Some? ==>
        recipeTags == old(recipeTags) + TagLinks(old(nextId), tagIds.value[..FirstUnknownTag(tagIds.value, tags)])
      ensures result.Ok? || result == Err(IngredientNotFound) ==>
        recipeTags == old(recipeTags) + TagLinks(old(nextId), tagIds.value)
      ensures result == Err(TagsMissing) || result == Err(TagNotFound) ==> lines == old(lines)
      ensures result == Err(IngredientNotFound) ==>
        lines == old(lines) + RowsFor(catalogue, old(nextId), data.ingredients.value[..KnownEntries(data.ingredients.value, catalogue)])
      ensures result.Ok? ==> lines == old(lines) + RowsFor(catalogue, old(nextId), data.ingredients.value)
      ensures old(lines) <= lines
      ensures forall i :: |old(lines)| <= i < |lines| ==> lines[i].recipe == old(nextId)
    {
      var id := nextId;
      nextId := nextId + 1;
      recipes := recipes[id := Recipe(id, author, data.name.value, data.image.value, data.text.value, data.cookingTime.value)];
      if tagIds.None? {
        return Err(TagsMissing);
      }
      var tagsOk := AddTags(id, tagIds.value);
      if !tagsOk {
        return Err(TagNotFound);
      }
      var es := data.ingredients.value;
      var ingredientsOk := AddIngredients(id, es);
      if !ingredientsOk {
        return Err(IngredientNotFound);
      }
      return Ok(id);
    }

    /**
     * `update`: clears the recipe's tags at once, merges the fields in memory,
     * re-adds the tags, replaces the ingredient rows only when a non-empty
     * list is given, and saves the fields last. A failure part-way keeps the
     * tag and row changes made so far but not the fields.
     */
    method Update(id: RecipeId, data: RecipeData, tagIds: Option<seq<TagId>>)
      returns (result: Result<RecipeId, WriteError>)
      requires Valid() && id in recipes
      requires data.cookingTime.Some? ==> ValidCookingTime(data.cookingTime.value)
      requires data.ingredients.Some? ==> WellFormedEntries(data.ingredients.value)
      modifies this
      ensures Valid()
      ensures nextId == old(nextId)
      ensures var replace := data.ingredients.Some? && data.ingredients.value != [];
        result == if tagIds.None? then Err(TagsMissing)
                  else if exists t :: t in tagIds.value && t !in tags then Err(TagNotFound)
                  else if replace && !KnownIngredients(data.ingredients.value, catalogue) then Err(IngredientNotFound)
                  else Ok(id)
      ensures recipes == if result.Ok? then old(recipes)[id := Updated(old(recipes)[id], data)] else old(recipes)
      ensures tagIds.None? ==> recipeTags == LinksOfOtherRecipes(old(recipeTags), id)
      ensures tagIds.Some? ==>
        LinksOfOtherRecipes(old(recipeTags), id) <= recipeTags
        <= LinksOfOtherRecipes(old(recipeTags), id) + TagLinks(id, tagIds.value)
      ensures tagIds.Some? ==>
        recipeTags == LinksOfOtherRecipes(old(recipeTags), id) + TagLinks(id, tagIds.value[..FirstUnknownTag(tagIds.value, tags)])
      ensures result.Ok? || result == Err(IngredientNotFound) ==>
        recipeTags == LinksOfOtherRecipes(old(recipeTags), id) + TagLinks(id, tagIds.value)
      ensures result == Err(TagsMissing) || result == Err(TagNotFound) ==> lines == old(lines)
      ensures result == Err(IngredientNotFound) ==>
        lines == LinesOfOtherRecipes(old(lines), id) + RowsFor(catalogue, id, data.ingredients.value[..KnownEntries(data.ingredients.value, catalogue)])
      ensures result == Err(IngredientNotFound) ==>
        && LinesOfOtherRecipes(old(lines), id) <= lines
        && forall i :: |LinesOfOtherRecipes(old(lines), id)| <= i < |lines| ==> lines[i].recipe == id
      ensures result.Ok? ==> (lines ==
        if data.ingredients.Some? && data.ingredients.value != []
        then LinesOfOtherRecipes(old(lines), id) + RowsFor(catalogue, id, data.ingredients.value)
        else old(lines))
    {
      recipeTags := LinksOfOtherRecipes(recipeTags, id);
      var recipe := Updated(recipes[id], data);
      if tagIds.None? {
        return Err(TagsMissing);
      }
      var tagsOk := AddTags(id, tagIds.value);
      if !tagsOk {
        return Err(TagNotFound);
      }
      var ingredients := data.ingredients;
      if ingredients.Some? && ingredients.value != [] {
        lines := LinesOfOtherRecipes(lines, id);
        var ingredientsOk := AddIngredients(id, ingredients.value);
        if !ingredientsOk {
          return Err(IngredientNotFound);
        }
      }
      recipes := recipes[id := recipe];
      return Ok(id);
    }
  }

  /** Entries that pass validation are exactly what `create` and `update` need to keep the (ingredient, recipe) constraint. */
  lemma ValidatedEntriesFitTheTables(req: RecipeRequest)
    requires Validation(req).Ok?
    ensures Validation(req).value.ingredients.Some?
    ensures WellFormedEntries(Validation(req).value.ingredients.value)
    ensures PositiveAmounts(Validation(req).value.ingredients.value)
    ensures Validation(req).value.cookingTime.Some?
    ensures ValidCookingTime(Validation(req).value.cookingTime.value)
  {
    ValidationAcceptsExactly(req);
  }

  // ---------------------------------------------------------------------------
  // A partial update without `name`
  // ---------------------------------------------------------------------------

  /** `validate` reads a missing name as `str(None)`, so it normalises to the text "None". */
  lemma MissingNameIsNone()
    ensures NormalizedName(None) == "None"
  {
    var none := "None";
    assert !IsSpace(none[0]) && !IsSpace(none[3]);
    assert StripLeading(none) == none;
    assert StripTrailing(none) == none;
    var c := Capitalize(none);
    assert forall i | 0 <= i < 4 :: c[i] == none[i];
  }

  /**
   * As written: a PATCH that leaves out `name` but passes `validate` renames
   * the recipe to "None", because `validated_data` then holds that text.
   */
  lemma PatchWithoutNameRenamesToNone(recipe: Recipe, req: RecipeRequest)
    requires req.name.None? && Validation(req).Ok?
    ensures Updated(recipe, Validation(req).value).name == "None"
  {
    assert Validation(req).value.name == Some(NormalizedName(req.name));
    MissingNameIsNone();
  }

  /** The validator with a missing name left out of `validated_data`, so that `update` keeps the old one. */
  function IntendedValidation(req: RecipeRequest): (r: Result<RecipeData, ValidationError>)
    ensures r.Ok? <==> Validation(req).Ok?
    ensures r.Err? ==> r == Validation(req)
  {
    match Validation(req)
      case Err(e) => Err(e)
      case Ok(d) => Ok(d.(name := if req.name.None? then None else d.name))
  }

  /**
   * Corrected: after the intended validation, a missing name keeps the
   * recipe's name and a given one is normalised; the other fields and the
   * checks are those of `validate`, and the data still fits `update`.
   */
  lemma IntendedValidationKeepsAbsentName(recipe: Recipe, req: RecipeRequest)
    requires Validation(req).Ok?
    ensures Updated(recipe, IntendedValidation(req).value).name ==
      if req.name.None? then recipe.name else NormalizedName(req.name)
    ensures Updated(recipe, IntendedValidation(req).value).cookingTime == req.cookingTime.value
    ensures Updated(recipe, IntendedValidation(req).value).text == req.text.GetOr(recipe.text)
    ensures Updated(recipe, IntendedValidation(req).value).image == req.image.GetOr(recipe.image)
    ensures IntendedValidation(req).value.ingredients == req.ingredients
    ensures ValidCookingTime(req.cookingTime.value)
    ensures req.ingredients.Some? && WellFormedEntries(req.ingredients.value)
  {
    ValidationAcceptsExactly(req);
  }
}
