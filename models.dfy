/**
 * The records of the recipes app, their database constraints, and their
 * `__str__` renderings. Each table is a value here; the classes that change
 * tables live with the code that changes them.
 */
module Models {
  import opened Text

  type UserId = nat
  type RecipeId = nat
  type IngredientId = int
  type TagId = nat

  /** A user as the request sees it; AnonymousUser has no id and no flags. */
  datatype User = User(id: UserId, username: string, isStaff: bool, isSuperuser: bool)

  datatype Requester = Anonymous | Authenticated(user: User)

  datatype Ingredient = Ingredient(id: IngredientId, name: string, measureUnit: string)

  datatype Recipe = Recipe(
    id: RecipeId,
    author: UserId,
    name: string,
    image: string,
    text: string,
    cookingTime: int)

  /** A row of the recipe/ingredient through table, with its ingredient resolved. */
  datatype IngredientForRecipe = IngredientForRecipe(ingredient: Ingredient, recipe: RecipeId, amount: nat)

  /** A row of Favourite, ShoppingList or Subscription: a user and a recipe (or an author). */
  datatype Pair = Pair(user: UserId, target: nat)

  // ---------------------------------------------------------------------------
  // Field and table constraints
  // ---------------------------------------------------------------------------

  /** `cooking_time`: at least 1, as its MinValueValidator and the serializer's check demand. */
  predicate ValidCookingTime(t: int) {
    t >= 1
  }

  /** `amount`: greater than 0, as the serializer's check demands (the column alone would take 0). */
  predicate ValidAmount(a: int) {
    a > 0
  }

  /** UniqueConstraint(ingredient, recipe) of the through table. */
  predicate UniqueIngredientPerRecipe(lines: seq<IngredientForRecipe>) {
    forall i, j :: 0 <= i < j < |lines| ==>
      lines[i].ingredient.id != lines[j].ingredient.id || lines[i].recipe != lines[j].recipe
  }

  /** UniqueConstraint(user, recipe) of Favourite and ShoppingList, (user, author) of Subscription. */
  predicate UniquePairs(rows: seq<Pair>) {
    forall i, j :: 0 <= i < j < |rows| ==> rows[i] != rows[j]
  }

  /** Every row of a table that keeps the constraint is a distinct element, so the rows are as many as the pairs. */
  lemma {:induction false} UniquePairsCount(rows: seq<Pair>)
    requires UniquePairs(rows)
    ensures |set p | p in rows| == |rows|
  {
    if rows != [] {
      var rest := rows[1..];
      UniquePairsCount(rest);
      assert (set p | p in rows) == (set p | p in rest) + {rows[0]};
      assert rows[0] !in rest by {
        forall k | 0 <= k < |rest| ensures rest[k] != rows[0] {
          assert rest[k] == rows[k + 1];
        }
      }
    }
  }

  // ---------------------------------------------------------------------------
  // Querysets
  // ---------------------------------------------------------------------------

  /** `r` is `s` with some elements left out, the rest in their order. */
  predicate IsSubsequence<T(==)>(r: seq<T>, s: seq<T>)
    decreases |s|
  {
    if r == [] then true
    else if s == [] then false
    else if r[0] == s[0] then IsSubsequence(r[1..], s[1..])
    else IsSubsequence(r, s[1..])
  }

  lemma {:induction false} IsSubsequenceOfItself<T>(s: seq<T>)
    ensures IsSubsequence(s, s)
  {
    if s != [] {
      IsSubsequenceOfItself(s[1..]);
    }
  }

  // ---------------------------------------------------------------------------
  // String renderings
  // ---------------------------------------------------------------------------

  /** `Recipe.__str__`: the first 25 characters of the name. */
  function RecipeString(r: Recipe): (s: string)
    ensures s <= r.name
    ensures |s| == if |r.name| < 25 then |r.name| else 25
  {
    if |r.name| <= 25 then r.name else r.name[..25]
  }

  /** `IngredientForRecipe.__str__`: "{ingredient}: {amount}", where an ingredient renders as its name. */
  function IngredientForRecipeString(line: IngredientForRecipe): string {
    line.ingredient.name + ": " + Decimal(line.amount)
  }

  /** The rendering starts with the ingredient's name and its amount can be read back from the end. */
  lemma IngredientForRecipeStringReadsBack(line: IngredientForRecipe)
    ensures line.ingredient.name <= IngredientForRecipeString(line)
    ensures AllDigits(TrailingDigits(IngredientForRecipeString(line)))
    ensures ParseDecimal(TrailingDigits(IngredientForRecipeString(line))) == line.amount
  {
    var front := line.ingredient.name + ": ";
    assert IngredientForRecipeString(line) == front + Decimal(line.amount);
    TrailingDigitsOfConcat(front, Decimal(line.amount));
    ParseDecimalOfDecimal(line.amount);
  }

  /** `ShoppingList.__str__`: "Список покупок {username}". */
  function ShoppingListString(owner: User): (s: string)
    ensures |s| == 15 + |owner.username|
    ensures s[..15] == "Список покупок "
    ensures s[15..] == owner.username
  {
    "Список покупок " + owner.username
  }
}
