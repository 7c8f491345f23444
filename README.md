# Foodgram backend: a verified model of its core logic

Foodgram is a Django recipe-sharing backend. Users publish recipes made of
ingredient lines, mark recipes as favourites, put them in a shopping list,
and subscribe to authors. This project models in Dafny the parts of the
backend whose behaviour can be stated exactly, and proves what they promise.

- **Shopping-list report** (`download_shopping_cart`), in `shopping_report.dfy`.
  - The grouping query is a pure function, `ShoppingTotals`. It groups the lines of the recipes in the user's shopping list by (ingredient name, measure unit), sums each group and orders the groups by name.
  - It is built as a strictly sorted association list.
  - `DownloadShoppingCart` is the loop that numbers and renders the groups. It is proved equal to the function `ShoppingReport`.
  - The report's properties are proved as lemmas: one line per key, exact sums, name order, numbering from 1, empty in/empty out, independence from lines of recipes not in the user's shopping list, and independence from the order in which the database returns the lines.
- **Membership tables** (favourites, shopping list, subscriptions), in `membership.dfy`.
  - The class `MembershipTable` holds a table's rows.
  - Its invariant is the table's unique constraint.
  - `Add` and `Remove` return the outcome the view answers with, and they state the table's new contents.
- **Recipe serializer**, in `serializers.dfy`.
  - `Validate` is the loop with the seen-set. It is proved equal to the specification `Validation`. Lemmas characterise exactly which requests are accepted, and that the first fault in source order is the one reported.
  - The class `RecipeTables` holds the recipe, tag-link and recipe/ingredient tables that `create` and `update` write. Their effects are stated field by field, including what a failure part-way leaves behind.
  - The read-only lookups `get_is_favourite`/`get_is_shopping_list` (`MarkedBy`) and `get_recipes`/`get_recipes_count` (`GetRecipes`, `RecipesCount`) are modelled too.
- **Permissions** (`permissions.dfy`) and **query filters** (`filters.dfy`) are boolean and restriction functions. Their contracts are their truth tables.
- **Records and constraints** of `recipes/models.py` are in `models.dfy`, together with their `__str__` renderings.
- `text.dfy` holds the string operations the code relies on:
  - rendering of integers in decimal;
  - code-point string order;
  - Python's `str.strip` with the exact `str.isspace` set;
  - `str.capitalize`, restricted to ASCII letters.

Python semantics that matter are written out:

- A missing key read with `.get()` is `None`. The model represents it as `Option.None`.
- `str(None)` is the text `"None"`.
- Comparing `None` with a number raises `TypeError`. The model reports that as the error tag `TypeMismatch`.
- `if limit:` treats `"0"` as present and `""` as absent.

Where the code and its description differ, the model follows the code:

- The report groups by (name, unit), not by ingredient. `values()` names both fields before `annotate`.
- Ties between groups with the same name are left unordered by the database. The model orders them by unit.
- `NameSearchFilter` and `RecipeFilter` are defined in `api/filters.py` but never attached in `api/views.py`. `IngredientViewSet` searches with DRF's `SearchFilter` on `^name`, which is case-insensitive. The model gives the filters as written, including the stripping of the name query by the filter's form field.
- `create` and `update` run without a transaction. A missing tag or ingredient therefore leaves the rows written before it.

## Model

| member | source | states |
|---|---|---|
| ShoppingReport.DownloadShoppingCart | backend/api/views.py:192-204 | The list the view builds is exactly `ShoppingReport`: the groups of `ShoppingTotals`, numbered from 1 in order, each rendered as "{n}. {name} - {total} {unit} \n". |
| ShoppingReport.ShoppingTotalsOnePerKey | backend/api/views.py:193-197 | The groups are exactly the distinct (name, unit) keys of the lines whose recipe is in the user's shopping list. There is one group per key, and the same name with two units gives two groups. |
| ShoppingReport.ShoppingTotalsSumGroups | backend/api/views.py:197 | Each group's total is the sum of the amounts of exactly the cart lines with its key. All totals together equal the sum over all cart lines. |
| ShoppingReport.ShoppingTotalsOrderedByName | backend/api/views.py:197 | Of any two groups, the earlier has a smaller name, or the same name and a smaller unit. So names are in ascending but not strictly ascending order, and the (name, unit) keys are strictly ascending. |
| ShoppingReport.ShoppingReportIgnoresOtherRecipes | backend/api/views.py:193-194 | Adding a line whose recipe is not in the user's shopping list leaves the report unchanged. |
| ShoppingReport.ShoppingReportEmpty | backend/api/views.py:198-204 | The report is empty exactly when none of the lines belongs to a recipe in the user's shopping list. |
| ShoppingReport.ShoppingReportNumbering | backend/api/views.py:199-204 | Line i of the report reads back as the number i + 1, followed by ". ", and ends with " \n". |
| ShoppingReport.FlourAndSaltExample | backend/api/views.py:193-204 | Two cart recipes sharing flour (200 g and 150 g) plus 5 g salt give "1. Flour - 350 g \n" and "2. Salt - 5 g \n". |
| ShoppingReport.AggregateIsExact | backend/api/views.py:194-197 | Grouping any lines gives a strictly key-sorted list. Its keys are the lines' keys, each key's total is the sum of its lines' amounts, and the grand total is kept. |
| ShoppingReport.ShoppingReportIgnoresOrder | backend/api/views.py:193-204 | Two line tables with the same multiset of rows give the same report. |
| ShoppingReport.AggregateIgnoresOrder | backend/api/views.py:194-197 | Grouping two permutations of the same lines gives the same groups. |
| ShoppingReport.SortedGroupsUnique | backend/api/views.py:197 | Two strictly sorted group lists with the same keys and the same total per key are equal. |
| ShoppingReport.GroupSumPermutation | backend/api/views.py:197 | A key's `Sum('amount')` is the same over any permutation of the lines. |
| ShoppingReport.GroupSumAppend | backend/api/views.py:197 | A key's sum over two tables of lines taken together is the sum of the two sums. |
| ShoppingReport.RemoveMatching | backend/api/views.py:197 | Removing the same line from two permutations of a table leaves permutations. |
| ShoppingReport.KeysOfLinesPermutation | backend/api/views.py:194-196 | Permuted lines have the same (name, unit) keys. |
| ShoppingReport.SelectedMultiset | backend/api/views.py:193-194 | The selection keeps each line of a recipe in the user's shopping list as often as it occurs, and drops every other line. |
| ShoppingReport.SelectedPermutation | backend/api/views.py:193-194 | Selecting from permuted lines gives permuted selections. |
| ShoppingReport.SelectedKeys | backend/api/views.py:193-196 | The keys of the selected lines are the keys of the cart lines. |
| ShoppingReport.SelectedSums | backend/api/views.py:193-197 | The per-key sums and the overall sum of the selected lines are those of the cart lines. |
| ShoppingReport.FormatLineFrame | backend/api/views.py:201-203 | A rendered line reads back its number in front of ". " and ends with " \n". |
| ShoppingReport.SortedTail | backend/api/views.py:197 | The tail of a strictly sorted group list is strictly sorted and does not hold the first group's key. |
| ShoppingReport.SortedGroupCount | backend/api/views.py:197 | A strictly sorted group list has as many groups as distinct keys. |
| ShoppingReport.TotalOfSortedGroup | backend/api/views.py:197 | In a strictly sorted group list, looking a key up gives the total stored in that key's group. |
| ShoppingReport.TotalOfMissingKey | backend/api/views.py:197 | A key with no group has total 0. |
| ShoppingReport.KeyLessTotal | backend/api/views.py:197 | The (name, unit) order compares any two distinct keys. |
| ShoppingReport.KeyLessTransitive | backend/api/views.py:197 | The (name, unit) order is transitive. |
| ShoppingReport.KeyLessIrreflexive | backend/api/views.py:197 | The (name, unit) order is strict. |
| Membership.MembershipTable.Add | backend/api/views.py:160-171 | A target that does not exist is refused, and so is a pair already present. Otherwise exactly that pair is appended. The unique constraint is kept, and the set of pairs grows by at most that pair. |
| Membership.MembershipTable.Remove | backend/api/views.py:174-187 | A recipe that does not exist is a not-found error, checked first. An absent pair is an error and nothing changes. A present pair is removed: one row fewer, nothing else changes, and the constraint is kept. |
| Membership.MembershipTable.Contains | backend/api/views.py:177-178 | `exists()` is true exactly when the pair is in the table. |
| Membership.Without | backend/api/views.py:184-186 | Deleting a pair keeps every other row and drops only that pair. On a table that keeps the constraint, it removes exactly one row when the pair is present; it changes nothing when the pair is absent. |
| Membership.ConsUnique | backend/recipes/models.py:153-159 | A row in front of a table keeps the unique constraint exactly when the rest keeps it and does not hold that row. |
| Membership.AppendKeepsUnique | backend/recipes/models.py:129-134 | Appending a pair that is not yet present keeps the (user, recipe) constraint. |
| Models.UniquePairsCount | backend/users/models.py:21-27 | A table that keeps a (user, target) unique constraint has as many rows as distinct pairs. |
| Models.RecipeString | backend/recipes/models.py:80-81 | A recipe renders as a prefix of its name, min(25, length) characters long. |
| Models.IngredientForRecipeStringReadsBack | backend/recipes/models.py:110-111 | An ingredient line renders as "{name}: {amount}". It starts with the name, and its trailing digits parse back to the amount. |
| Models.ShoppingListString | backend/recipes/models.py:163-164 | A shopping list renders as the 15-character prefix "Список покупок " followed by the owner's username. |
| Permissions.HasObjectPermission | backend/api/permissions.py:4-10 | Object access is allowed exactly for a safe method, a superuser, the object's author, or POST. |
| Permissions.HasAdminOrReadOnlyPermission | backend/api/permissions.py:13-17 | Safe methods are allowed to everyone. Other methods are allowed only to an authenticated staff user. |
| Permissions.OthersMayOnlyReadOrPost | backend/api/permissions.py:4-10 | A user who is neither superuser nor author may only use safe methods and POST on an object. |
| Permissions.AnonymousMayOnlyReadOrPost | backend/api/permissions.py:4-10 | An anonymous requester may only use safe methods and POST on an object. |
| Filters.CleanedQuery | backend/api/filters.py:10 | The form field strips the parameter. A missing or blank parameter turns the filter off; any other gives its stripped, non-empty text. |
| Filters.NamesWithPrefix | backend/api/filters.py:10 | `startswith` keeps exactly the ingredients whose name starts with the prefix, each as often as in the queryset, in the queryset's order. |
| Filters.NameStartsWith | backend/api/filters.py:10 | A missing or blank query returns the queryset unchanged. Any other query keeps exactly the ingredients whose name starts with the stripped query, with their multiplicity and in the queryset's order. |
| Filters.MarkedRecipes | backend/api/filters.py:37 | `filter(<table>__user=user)` keeps exactly the recipes the user has a row for, each as often as in the queryset, in order. |
| Filters.FilterMarked | backend/api/filters.py:35-43 | A false value returns the queryset unchanged. A true value keeps exactly the requesting user's marked recipes, with their multiplicity. An anonymous user with a true value is an error. Every result is a subsequence of the queryset. |
| Filters.FilterAgreesWithSerializer | backend/api/filters.py:35-37 | The `is_favorited` filter keeps a recipe exactly when `get_is_favourite` shows it as a favourite. |
| Serializers.Validate | backend/api/serializers.py:155-178 | The validator loop computes `Validation`. A missing or short cooking time is rejected first, then a missing or empty ingredient list. Then, entry by entry, a missing or non-positive amount or an id already seen is rejected. On success the result holds the normalised name, with the list and cooking time unchanged. |
| Serializers.ValidationAcceptsExactly | backend/api/serializers.py:155-178 | A request is accepted exactly when its cooking time is at least 1 and its ingredient list is non-empty, with positive amounts and distinct ids. An accepted request gets the stripped, capitalised name and keeps its ingredients, cooking time, text and image. |
| Serializers.ValidationReportsFirstFault | backend/api/serializers.py:165-174 | A rejected ingredient list is rejected with the fault of its earliest faulty entry. |
| Serializers.CookingTimeCheckedFirst | backend/api/serializers.py:157-160 | A cooking time below 1 is reported whatever the ingredients are. |
| Serializers.NormalizedNameIsStable | backend/api/serializers.py:156-175 | Normalising an already normalised name changes nothing. |
| Serializers.NoFaultIsWellFormed | backend/api/serializers.py:165-174 | No entry is faulty exactly when every amount is present and positive and no id repeats. |
| Serializers.FirstFaultWhenClean | backend/api/serializers.py:166-174 | The loop completes when no entry is faulty. |
| Serializers.FirstFaultAtEarliest | backend/api/serializers.py:166-174 | The loop stops at the earliest faulty entry, with that entry's fault. |
| Serializers.EntryFaultShift | backend/api/serializers.py:170-174 | Moving one entry into the seen-set does not change the fault of any later entry. |
| Serializers.EarliestFaultExists | backend/api/serializers.py:166-173 | If some entry is faulty, there is an earliest one. |
| Serializers.ValidatedEntriesFitTheTables | backend/api/serializers.py:175-195 | Validated ingredients are present, with positive amounts and distinct ids, and the validated cooking time is present and at least 1. That is what `create` and `update` need to keep the table invariants. |
| Serializers.MarkedBy | backend/api/serializers.py:116-130 | The result is false without a request or for an anonymous user. Otherwise it is true exactly when (user, recipe) is in the table. |
| Serializers.RecipesBy | backend/api/serializers.py:246 | `filter(author=...)` keeps exactly the author's recipes, in the table's order: the result is a subsequence of the table. |
| Serializers.RecipesByCount | backend/api/serializers.py:251-252 | `get_recipes_count` is the number of recipes `filter(author=...)` lists. |
| Serializers.GetRecipesIsLimitedPrefix | backend/api/serializers.py:243-249 | Without a limit, the result is all of the author's recipes. A negative limit is an error. Otherwise the result is the first min(limit, count) of them, in order. |
| Serializers.RowsFor | backend/api/serializers.py:190-195 | One through-table row is written per validated entry, carrying that entry's ingredient and amount, in order. |
| Serializers.LinesOfOtherRecipes | backend/api/serializers.py:213 | `recipe.ingredients.clear()` removes exactly the recipe's rows and keeps the unique constraint. |
| Serializers.UniqueLinesCons | backend/recipes/models.py:103-108 | A row in front of the through table keeps the (ingredient, recipe) constraint exactly when the rest keeps it and no row in the rest clashes with it. |
| Serializers.AppendLineKeepsUnique | backend/recipes/models.py:103-108 | Appending a row that clashes with none keeps the (ingredient, recipe) constraint. |
| Serializers.Updated | backend/api/serializers.py:202-209 | Each of name, text, image and cooking time takes the validated value when present and keeps the old one otherwise. Id and author are unchanged. |
| Serializers.FirstUnknownTag | backend/api/serializers.py:188-189 | The tags before the returned position all exist, and the tag at it, if any, does not: the point where `get_object_or_404` stops the loop. |
| Serializers.KnownEntries | backend/api/serializers.py:190-195 | The entries before the returned position all name a known ingredient, and the entry at it, if any, does not: the point where the row loop stops. |
| Serializers.RecipeTables.AddTags | backend/api/serializers.py:188-189 | Tags are linked one by one. It succeeds exactly when every tag exists, and then links all of them. In every case the links added are exactly those of the tags before the first unknown one. |
| Serializers.RecipeTables.AddIngredients | backend/api/serializers.py:190-195 | It succeeds exactly when every entry's ingredient exists, and then appends `RowsFor` the entries. In every case it appends exactly the rows of the entries before the first unknown ingredient, and it keeps the table invariants. |
| Serializers.RecipeTables.Create | backend/api/serializers.py:180-196 | The recipe is stored under a fresh id with the validated fields, and stays stored whatever follows. Missing tags, an unknown tag and an unknown ingredient are errors, in that order. Missing tags leave the tag links as they were. Otherwise exactly the links to the tags before the first unknown one are added, so after an unknown ingredient and on success the recipe has all the given tags. After a tag error no through-table row is written. After an unknown ingredient exactly the rows of the entries before it are written; on success one row is written per entry. Earlier rows are never touched. The table invariants are kept: fresh ids, cooking times of at least 1, positive amounts, rows pointing at stored recipes, and the (ingredient, recipe) constraint. |
| Serializers.RecipeTables.Update | backend/api/serializers.py:198-224 | The recipe's tags are cleared first, so missing tags leave it with none; otherwise it gets exactly the tags before the first unknown one, so after an unknown ingredient and on success all the given tags. Other recipes' links are kept. The outcome depends on missing tags, an unknown tag, and then an unknown ingredient in a non-empty list. After a tag error the through table is unchanged. After an unknown ingredient the recipe's old rows are gone, other rows are kept in order, and exactly the rows of the entries before the unknown one follow them. On success, absent fields keep their old values, and rows are replaced only when a non-empty list is given. Fields change only on success. The table invariants are kept. |
| Serializers.MissingNameIsNone | backend/api/serializers.py:156 | A missing name is read as `str(None)` and normalises to the text "None". |
| Serializers.PatchWithoutNameRenamesToNone | backend/api/serializers.py:156-175 | As written: whenever `validate` accepts a request without a name, merging its data into any recipe sets the recipe's name to "None". |
| Serializers.IntendedValidation | backend/api/serializers.py:155-178 | Corrected validator: it accepts and rejects exactly the requests `validate` does, with the same error. |
| Serializers.IntendedValidationKeepsAbsentName | backend/api/serializers.py:202-209 | Corrected: after the intended validation, a missing name keeps the recipe's old name and a given one is normalised. Cooking time, text and image merge as in `update`, and the data meets the requires of `Update`. |
| Text.Strip | backend/api/serializers.py:156 | The stripped text is empty or starts and ends with a non-space character, using Python's `str.isspace` set. |
| Text.StripLeadingDropsOnlySpace | backend/api/serializers.py:156 | Everything `lstrip` removes from the front is whitespace. |
| Text.StripTrailingDropsOnlySpace | backend/api/serializers.py:156 | Everything `rstrip` removes from the back is whitespace. |
| Text.StripRemovesOnlyOuterSpace | backend/api/serializers.py:156 | The stripped text is the slice of the input after its leading whitespace, and only whitespace lies before and after that slice. |
| Text.StripIsIdempotent | backend/api/serializers.py:156 | Stripping twice is stripping once. |
| Text.Capitalize | backend/api/serializers.py:175 | Length is kept. The first character is upper-cased and every other character lower-cased. |
| Text.CapitalizeStrippedIsFixedPoint | backend/api/serializers.py:175 | Capitalising a stripped name leaves it stripped, and capitalising again changes nothing. |
| Text.Decimal | backend/api/views.py:201-202 | An integer renders as a non-empty string of digits. Zero renders as "0", and no other number starts with '0'. |
| Text.ParseDecimalOfDecimal | backend/api/views.py:201-202 | The decimal rendering of a number reads back as that number. |
| Text.LeadingDigits | backend/api/views.py:201 | The result is the longest prefix of digits. |
| Text.LeadingDigitsOfConcat | backend/api/views.py:201 | The digits in front of ". " are exactly the rendered number. |
| Text.TrailingDigits | backend/recipes/models.py:111 | The result is the longest suffix of digits. |
| Text.TrailingDigitsOfConcat | backend/recipes/models.py:111 | The digits after ": " are exactly the rendered amount. |
| Text.LexLessTotal | backend/api/views.py:197 | Code-point string order compares any two distinct names. |
| Text.LexLessTransitive | backend/api/views.py:197 | Code-point string order is transitive. |
| Text.LexLessAsymmetric | backend/api/views.py:197 | Code-point string order is asymmetric. |
| Text.LexLessIrreflexive | backend/api/views.py:197 | Code-point string order is strict. |

## Left out

- HTTP response building is not modelled: status codes, `HttpResponse`, the `Content-Disposition` header, and `Response(*data)`. Outcomes are result tags whose comments name the status.
- ORM mechanics, querysets as lazy SQL, and pagination are not modelled. `PagePagination` is not part of this model. Tables are sequences, sets and maps.
- The subscribe action (POST) is not modelled. It relies on `SubscribeSerializer`, which `api/serializers.py` does not define. Unsubscribing is `MembershipTable.Remove` over (user, author) rows.
- Membership.MembershipTable.Add: the model assumes the serializer enforces the unique constraint by validation. It does not model the database refusing a duplicate when no validator is generated. The target's existence is a parameter.
- Djoser user creation, password hashing and `CustomUserSerializer.get_is_subscribed` are not modelled. The last is the same lookup as `MarkedBy`, over the subscription table, except that it raises when the serializer context has no request, where `MarkedBy` answers false.
- Base64 image decoding is not modelled. An image is an opaque string.
- The admin registrations and the CSV import command are not modelled. They are configuration and file I/O.
- Text.Capitalize: only ASCII letters change case. Python's full Unicode case mapping (e.g. Cyrillic names) is not modelled.
- ShoppingReport.ShoppingTotalsOrderedByName: name order is code-point order, not the database collation. Same-name groups are ordered by unit, where the database gives no order.
- Serializers.GetRecipes: a `recipes_limit` that is not a number raises `ValueError` in `int()`. The model takes the limit already parsed and does not model that error.
- The 32767 upper bound of the small-integer columns is not modelled. For `cooking_time`, the serializer field built from the model column refuses a value above 32767 before `validate` runs. For `amount`, which `validate` reads from the raw request body with no field validation, the database refuses a larger value on insert where the column type enforces the range. The table invariant states only the lower bounds `validate` enforces.
- Serializers.Validate: `Validation` models `validate` alone. DRF's field validation, which runs first, is not modelled: the range of `cooking_time`, and on create and on a full PUT the required fields `name`, `text`, `image` and `cooking_time`. So the name "None" for a missing name, and `TypeMismatch` for a missing cooking time, are what the source gives only on a partial update (PATCH); on create or PUT such a request gets a field error instead.
- `Tag.__str__` is not modelled, since nothing in the core renders a tag. `Ingredient.__str__` is its name, written directly into `IngredientForRecipeString`.
- Serializers.Validate: an `amount` or `cooking_time` of a non-numeric JSON type is not modelled. Values are integers or missing.
- Serializers.RecipeTables.Create: an unknown ingredient id fails at the database, on the row insert. The model reports it at the same point in the loop.
- The `tags` and `author` filters of `RecipeFilter` are not modelled. They are declarative django-filter lookups with no code here.
- Concurrent requests are not modelled.

## Findings

| source | as written | input that shows it | evidently intended | confidence | as-written member | corrected member |
|---|---|---|---|---|---|---|
| backend/api/serializers.py:156 | `str(self.initial_data.get('name')).strip()` turns a missing name into the text "None", and `validate` always puts it into `validated_data`, so `update` stores it | a PATCH with `tags`, `cooking_time` 10 and one valid ingredient, but no `name` | a missing name stays out of `validated_data`, so `update` keeps the recipe's old name | not executed; high, from the code's reading | Serializers.PatchWithoutNameRenamesToNone | Serializers.IntendedValidationKeepsAbsentName |

`RecipeTables.Update` takes the validated data as a parameter, so it applies unchanged to the data either validator produces.
