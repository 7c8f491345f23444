/**
 * The query filters of the API: the ingredient name prefix search and the
 * recipe filters on the requesting user's favourites and shopping list.
 * A queryset is a list of records in the queryset's order.
 */
module Filters {
  import opened Wrappers
  import opened Text
  import opened Models
  import opened Serializers

  // ---------------------------------------------------------------------------
  // NameSearchFilter
  // ---------------------------------------------------------------------------

  /**
   * The value `CharFilter` filters by: its form field strips the parameter,
   * and a missing or blank parameter leaves the filter out.
   */
  function CleanedQuery(query: Option<string>): (c: Option<string>)
    ensures c.None? <==> query.None? || Strip(query.value) == []
    ensures c.Some? ==> c.value == Strip(query.value) && c.value != []
  {
    if query.None? then None
    else
      var s := Strip(query.value);
      if s == [] then None else Some(s)
  }

  /** `filter(name__startswith=prefix)`: the ingredients whose name starts with `prefix`, in order. */
  function NamesWithPrefix(qs: seq<Ingredient>, prefix: string): (r: seq<Ingredient>)
    ensures forall x :: multiset(r)[x] == if prefix <= x.name then multiset(qs)[x] else 0
    ensures forall x :: x in r <==> x in qs && prefix <= x.name
    ensures IsSubsequence(r, qs)
  {
    if qs == [] then []
    else
      var rest := NamesWithPrefix(qs[1..], prefix);
      assert qs == [qs[0]] + qs[1..];
      if prefix <= qs[0].name then [qs[0]] + rest else rest
  }

  /**
   * `NameSearchFilter`: a missing or blank query leaves the queryset alone;
   * any other keeps the ingredients whose name starts with the stripped query.
   */
  function NameStartsWith(qs: seq<Ingredient>, query: Option<string>): (r: seq<Ingredient>)
    ensures query.None? || Strip(query.value) == [] ==> r == qs
    ensures query.Some? && Strip(query.value) != [] ==>
      forall x :: multiset(r)[x] == if Strip(query.value) <= x.name then multiset(qs)[x] else 0
    ensures forall x :: x in r <==> x in qs && (query.None? || Strip(query.value) <= x.name)
    ensures IsSubsequence(r, qs)
  {
    var cleaned := CleanedQuery(query);
    if cleaned.None? then
      IsSubsequenceOfItself(qs);
      qs
    else NamesWithPrefix(qs, cleaned.value)
  }

  // ---------------------------------------------------------------------------
  // RecipeFilter.get_is_favorited / get_is_in_shopping_cart
  // ---------------------------------------------------------------------------

  datatype FilterError = AnonymousLookup  // a related-field lookup on AnonymousUser raises

  /** `queryset.filter(<table>__user=user)`: the recipes the user has a row for, in order. */
  function MarkedRecipes(qs: seq<Recipe>, marks: set<Pair>, user: UserId): (r: seq<Recipe>)
    ensures forall x :: multiset(r)[x] == if Pair(user, x.id) in marks then multiset(qs)[x] else 0
    ensures forall x :: x in r <==> x in qs && Pair(user, x.id) in marks
    ensures IsSubsequence(r, qs)
  {
    if qs == [] then []
    else
      var rest := MarkedRecipes(qs[1..], marks, user);
      assert qs == [qs[0]] + qs[1..];
      if Pair(user, qs[0].id) in marks then [qs[0]] + rest else rest
  }

  /**
   * `get_is_favorited` (with the favourites table) and `get_is_in_shopping_cart`
   * (with the shopping-list table): a true value keeps the requesting user's
   * recipes, a false value returns the queryset unchanged.
   */
  function FilterMarked(qs: seq<Recipe>, marks: set<Pair>, who: Requester, value: bool): (r: Result<seq<Recipe>, FilterError>)
    ensures !value ==> r == Ok(qs)
    ensures value && who.Anonymous? ==> r == Err(AnonymousLookup)
    ensures value && who.Authenticated? ==>
      && r.Ok?
      && (forall x :: multiset(r.value)[x] == if Pair(who.user.id, x.id) in marks then multiset(qs)[x] else 0)
      && (forall x :: x in r.value <==> x in qs && Pair(who.user.id, x.id) in marks)
    ensures r.Ok? ==> IsSubsequence(r.value, qs)
  {
    if !value then
      IsSubsequenceOfItself(qs);
      Ok(qs)
    else if who.Anonymous? then Err(AnonymousLookup)
    else Ok(MarkedRecipes(qs, marks, who.user.id))
  }

  /** The filter and the serializer agree: a recipe survives `is_favorited=true` exactly when it is shown as a favourite. */
  lemma FilterAgreesWithSerializer(qs: seq<Recipe>, marks: set<Pair>, user: User)
    ensures var r := FilterMarked(qs, marks, Authenticated(user), true);
      r.Ok? && forall x :: x in qs ==> (x in r.value <==> MarkedBy(Some(Authenticated(user)), marks, x.id))
  {
  }
}
