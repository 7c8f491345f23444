/**
 * The downloadable shopping list (`download_shopping_cart`): every
 * ingredient line of every recipe in the user's shopping list, grouped by
 * (ingredient name, measure unit), summed, ordered by name, numbered from 1
 * and rendered one text line per group.
 *
 * The grouping query is a pure function, `ShoppingTotals`; it builds the
 * groups as an association list kept strictly sorted by key, which is at once
 * the "one row per (name, unit)" of the GROUP BY and the ORDER BY name.
 * The rendering loop is the method `DownloadShoppingCart`.
 */
module ShoppingReport {
  import opened Text
  import opened Models

  /** What `values('ingredient__name', 'ingredient__measure_unit')` groups by. */
  datatype GroupKey = GroupKey(name: string, unit: string)

  /** One row of the annotated query: a group and its `Sum('amount')`. */
  datatype Group = Group(key: GroupKey, total: nat)

  function KeyOf(line: IngredientForRecipe): GroupKey {
    GroupKey(line.ingredient.name, line.ingredient.measureUnit)
  }

  // ---------------------------------------------------------------------------
  // Order of groups: by name, and by unit between groups of the same name
  // ---------------------------------------------------------------------------

  predicate KeyLess(a: GroupKey, b: GroupKey) {
    LexLess(a.name, b.name) || (a.name == b.name && LexLess(a.unit, b.unit))
  }

  lemma KeyLessIrreflexive(a: GroupKey)
    ensures !KeyLess(a, a)
  {
    LexLessIrreflexive(a.name);
    LexLessIrreflexive(a.unit);
  }

  lemma KeyLessTransitive(a: GroupKey, b: GroupKey, c: GroupKey)
    requires KeyLess(a, b) && KeyLess(b, c)
    ensures KeyLess(a, c)
  {
    if LexLess(a.name, b.name) && LexLess(b.name, c.name) {
      LexLessTransitive(a.name, b.name, c.name);
    } else if a.name == b.name && b.name == c.name {
      LexLessTransitive(a.unit, b.unit, c.unit);
    }
  }

  lemma KeyLessTotal(a: GroupKey, b: GroupKey)
    ensures a == b || KeyLess(a, b) || KeyLess(b, a)
  {
    LexLessTotal(a.name, b.name);
    LexLessTotal(a.unit, b.unit);
  }

  predicate StrictlySorted(gs: seq<Group>) {
    forall i, j :: 0 <= i < j < |gs| ==> KeyLess(gs[i].key, gs[j].key)
  }

  // ---------------------------------------------------------------------------
  // Views of a list of groups
  // ---------------------------------------------------------------------------

  function Keys(gs: seq<Group>): set<GroupKey> {
    set i | 0 <= i < |gs| :: gs[i].key
  }

  /** The quantity the groups record for key `k` (zero when there is no such group). */
  function TotalOf(gs: seq<Group>, k: GroupKey): nat {
    if gs == [] then 0 else (if gs[0].key == k then gs[0].total else 0) + TotalOf(gs[1..], k)
  }

  function SumTotals(gs: seq<Group>): nat {
    if gs == [] then 0 else gs[0].total + SumTotals(gs[1..])
  }

  // ---------------------------------------------------------------------------
  // Views of the ingredient lines
  // ---------------------------------------------------------------------------

  function KeysOfLines(lines: seq<IngredientForRecipe>): set<GroupKey> {
    set i | 0 <= i < |lines| :: KeyOf(lines[i])
  }

  /** The amounts of the lines with key `k`, added up. */
  function GroupSum(lines: seq<IngredientForRecipe>, k: GroupKey): nat {
    if lines == [] then 0
    else GroupSum(lines[..|lines| - 1], k) + (if KeyOf(lines[|lines| - 1]) == k then lines[|lines| - 1].amount else 0)
  }

  function SumAmounts(lines: seq<IngredientForRecipe>): nat {
    if lines == [] then 0 else SumAmounts(lines[..|lines| - 1]) + lines[|lines| - 1].amount
  }

  // ---------------------------------------------------------------------------
  // The grouping query
  // ---------------------------------------------------------------------------

  /** Adds `amount` to the group `k` of a sorted list of groups, opening the group in its place if it is new. */
  function AddLine(gs: seq<Group>, k: GroupKey, amount: nat): seq<Group> {
    if gs == [] then [Group(k, amount)]
    else if gs[0].key == k then [Group(k, gs[0].total + amount)] + gs[1..]
    else if KeyLess(k, gs[0].key) then [Group(k, amount)] + gs
    else [gs[0]] + AddLine(gs[1..], k, amount)
  }

  lemma KeysCons(g: Group, gs: seq<Group>)
    ensures Keys([g] + gs) == {g.key} + Keys(gs)
  {
    var r := [g] + gs;
    assert r[0].key == g.key;
    forall x | x in Keys(gs) ensures x in Keys(r) {
      var i :| 0 <= i < |gs| && gs[i].key == x;
      assert r[i + 1] == gs[i];
    }
    forall x | x in Keys(r) ensures x in {g.key} + Keys(gs) {
      var i :| 0 <= i < |r| && r[i].key == x;
      if i > 0 {
        assert r[i] == gs[i - 1];
      }
    }
  }

  lemma KeysOfNonEmpty(gs: seq<Group>)
    requires gs != []
    ensures Keys(gs) == {gs[0].key} + Keys(gs[1..])
  {
    assert gs == [gs[0]] + gs[1..];
    KeysCons(gs[0], gs[1..]);
  }

  lemma {:induction false} AddLineKeys(gs: seq<Group>, k: GroupKey, amount: nat)
    ensures Keys(AddLine(gs, k, amount)) == Keys(gs) + {k}
  {
    if gs == [] {
      assert Keys([Group(k, amount)]) == {k} by {
        KeysCons(Group(k, amount), []);
      }
    } else if gs[0].key == k {
      KeysCons(Group(k, gs[0].total + amount), gs[1..]);
      KeysOfNonEmpty(gs);
    } else if KeyLess(k, gs[0].key) {
      KeysCons(Group(k, amount), gs);
    } else {
      AddLineKeys(gs[1..], k, amount);
      KeysCons(gs[0], AddLine(gs[1..], k, amount));
      KeysOfNonEmpty(gs);
    }
  }

  lemma {:induction false} AddLineSorted(gs: seq<Group>, k: GroupKey, amount: nat)
    requires StrictlySorted(gs)
    ensures StrictlySorted(AddLine(gs, k, amount))
  {
    var r := AddLine(gs, k, amount);
    if gs == [] {
    } else if gs[0].key == k {
      assert forall i :: 0 <= i < |r| ==> r[i].key == gs[i].key;
    } else if KeyLess(k, gs[0].key) {
      forall i, j | 0 <= i < j < |r| ensures KeyLess(r[i].key, r[j].key) {
        if i == 0 && j > 1 {
          KeyLessTransitive(k, gs[0].key, gs[j - 1].key);
        }
      }
    } else {
      KeyLessTotal(k, gs[0].key);
      var tail := AddLine(gs[1..], k, amount);
      AddLineSorted(gs[1..], k, amount);
      AddLineKeys(gs[1..], k, amount);
      forall j | 0 <= j < |tail| ensures KeyLess(gs[0].key, tail[j].key) {
        assert tail[j].key in Keys(gs[1..]) + {k};
        if tail[j].key != k {
          var m :| 0 <= m < |gs[1..]| && gs[1..][m].key == tail[j].key;
          assert gs[m + 1] == gs[1..][m];
        }
      }
      assert r == [gs[0]] + tail;
      forall i, j | 0 <= i < j < |r| ensures KeyLess(r[i].key, r[j].key) {
        if i == 0 {
          assert r[j] == tail[j - 1];
        } else {
          assert r[i] == tail[i - 1] && r[j] == tail[j - 1];
        }
      }
    }
  }

  lemma {:induction false} AddLineTotals(gs: seq<Group>, k: GroupKey, amount: nat, x: GroupKey)
    ensures TotalOf(AddLine(gs, k, amount), x) == TotalOf(gs, x) + (if x == k then amount else 0)
    ensures SumTotals(AddLine(gs, k, amount)) == SumTotals(gs) + amount
  {
    var r := AddLine(gs, k, amount);
    if gs == [] {
      assert r[1..] == [];
    } else if gs[0].key == k {
      assert r[1..] == gs[1..];
    } else if KeyLess(k, gs[0].key) {
      assert r[1..] == gs;
    } else {
      AddLineTotals(gs[1..], k, amount, x);
      assert r[1..] == AddLine(gs[1..], k, amount);
    }
  }

  /** GROUP BY (name, unit) with SUM(amount), ORDER BY name (then unit). */
  function Aggregate(lines: seq<IngredientForRecipe>): seq<Group> {
    if lines == [] then []
    else
      var last := lines[|lines| - 1];
      AddLine(Aggregate(lines[..|lines| - 1]), KeyOf(last), last.amount)
  }

  /**
   * The grouping is exact: the groups are strictly ordered, there is one for
   * every key that occurs and no other, each holds the sum of its lines, and
   * all groups together hold every amount once.
   */
  lemma {:induction false} AggregateIsExact(lines: seq<IngredientForRecipe>)
    ensures StrictlySorted(Aggregate(lines))
    ensures Keys(Aggregate(lines)) == KeysOfLines(lines)
    ensures forall k :: TotalOf(Aggregate(lines), k) == GroupSum(lines, k)
    ensures SumTotals(Aggregate(lines)) == SumAmounts(lines)
  {
    if lines != [] {
      var init := lines[..|lines| - 1];
      var last := lines[|lines| - 1];
      AggregateIsExact(init);
      AddLineSorted(Aggregate(init), KeyOf(last), last.amount);
      AddLineKeys(Aggregate(init), KeyOf(last), last.amount);
      forall k ensures TotalOf(Aggregate(lines), k) == GroupSum(lines, k) {
        AddLineTotals(Aggregate(init), KeyOf(last), last.amount, k);
      }
      AddLineTotals(Aggregate(init), KeyOf(last), last.amount, KeyOf(last));
      assert KeysOfLines(lines) == KeysOfLines(init) + {KeyOf(last)} by {
        forall x | x in KeysOfLines(init) ensures x in KeysOfLines(lines) {
          var i :| 0 <= i < |init| && KeyOf(init[i]) == x;
          assert lines[i] == init[i];
        }
      }
    }
  }

  // ---------------------------------------------------------------------------
  // Facts about strictly sorted group lists
  // ---------------------------------------------------------------------------

  lemma {:induction false} TotalOfMissingKey(gs: seq<Group>, k: GroupKey)
    requires k !in Keys(gs)
    ensures TotalOf(gs, k) == 0
  {
    if gs != [] {
      KeysOfNonEmpty(gs);
      TotalOfMissingKey(gs[1..], k);
    }
  }

  /** In a strictly sorted list the group of a key is the only one with that key. */
  lemma {:induction false} TotalOfSortedGroup(gs: seq<Group>, i: nat)
    requires StrictlySorted(gs) && i < |gs|
    ensures TotalOf(gs, gs[i].key) == gs[i].total
  {
    var tail := gs[1..];
    if i == 0 {
      forall j | 0 <= j < |tail| ensures tail[j].key != gs[0].key {
        assert KeyLess(gs[0].key, gs[j + 1].key);
        KeyLessIrreflexive(gs[0].key);
      }
      TotalOfMissingKey(tail, gs[0].key);
    } else {
      assert KeyLess(gs[0].key, gs[i].key);
      KeyLessIrreflexive(gs[0].key);
      assert tail[i - 1] == gs[i];
      TotalOfSortedGroup(tail, i - 1);
    }
  }

  /** The tail of a strictly sorted list is strictly sorted and does not hold the head's key. */
  lemma SortedTail(gs: seq<Group>)
    requires StrictlySorted(gs) && gs != []
    ensures StrictlySorted(gs[1..])
    ensures gs[0].key !in Keys(gs[1..])
  {
    var tail := gs[1..];
    forall i, j | 0 <= i < j < |tail| ensures KeyLess(tail[i].key, tail[j].key) {
      assert tail[i] == gs[i + 1] && tail[j] == gs[j + 1];
    }
    KeyLessIrreflexive(gs[0].key);
    forall j | 0 <= j < |tail| ensures tail[j].key != gs[0].key {
      assert KeyLess(gs[0].key, gs[j + 1].key);
    }
  }

  /** A strictly sorted list has as many groups as distinct keys. */
  lemma {:induction false} SortedGroupCount(gs: seq<Group>)
    requires StrictlySorted(gs)
    ensures |Keys(gs)| == |gs|
  {
    if gs != [] {
      SortedTail(gs);
      SortedGroupCount(gs[1..]);
      KeysOfNonEmpty(gs);
    }
  }

  /**
   * A strictly sorted list of groups is determined by its keys and the total
   * of each key: the grouped result of a query has one possible shape.
   */
  lemma {:induction false} SortedGroupsUnique(g1: seq<Group>, g2: seq<Group>)
    requires StrictlySorted(g1) && StrictlySorted(g2)
    requires Keys(g1) == Keys(g2)
    requires forall k :: TotalOf(g1, k) == TotalOf(g2, k)
    ensures g1 == g2
  {
    if g1 == [] || g2 == [] {
      if g1 != [] {
        KeysOfNonEmpty(g1);
      } else if g2 != [] {
        KeysOfNonEmpty(g2);
      }
    } else {
      var k1, k2 := g1[0].key, g2[0].key;
      KeysOfNonEmpty(g1);
      KeysOfNonEmpty(g2);
      assert k1 == k2 by {
        var j :| 0 <= j < |g1| && g1[j].key == k2;
        var m :| 0 <= m < |g2| && g2[m].key == k1;
        if j > 0 && m > 0 {
          assert KeyLess(k1, k2) && KeyLess(k2, k1);
          KeyLessTransitive(k1, k2, k1);
          KeyLessIrreflexive(k1);
        }
      }
      TotalOfSortedGroup(g1, 0);
      TotalOfSortedGroup(g2, 0);
      assert g1[0] == g2[0];
      SortedTail(g1);
      SortedTail(g2);
      forall k ensures TotalOf(g1[1..], k) == TotalOf(g2[1..], k) {
        assert TotalOf(g1, k) == TotalOf(g2, k);
      }
      SortedGroupsUnique(g1[1..], g2[1..]);
      assert g1 == [g1[0]] + g1[1..] && g2 == [g2[0]] + g2[1..];
    }
  }

  // ---------------------------------------------------------------------------
  // The grouping does not depend on the order of the lines
  // ---------------------------------------------------------------------------

  lemma {:induction false} GroupSumAppend(a: seq<IngredientForRecipe>, b: seq<IngredientForRecipe>, k: GroupKey)
    ensures GroupSum(a + b, k) == GroupSum(a, k) + GroupSum(b, k)
  {
    if b == [] {
      assert a + b == a;
    } else {
      var ab := a + b;
      assert ab[..|ab| - 1] == a + b[..|b| - 1];
      assert ab[|ab| - 1] == b[|b| - 1];
      GroupSumAppend(a, b[..|b| - 1], k);
    }
  }

  /** Taking the last line out of one list and the same line out of a permutation of it leaves permutations. */
  lemma RemoveMatching(a: seq<IngredientForRecipe>, b: seq<IngredientForRecipe>, j: nat)
    requires multiset(a) == multiset(b) && a != []
    requires j < |b| && b[j] == a[|a| - 1]
    ensures multiset(a[..|a| - 1]) == multiset(b[..j] + b[j + 1..])
  {
    var init, x := a[..|a| - 1], a[|a| - 1];
    var before, after := b[..j], b[j + 1..];
    assert a == init + [x];
    assert b == before + [x] + after;
    assert multiset(a) == multiset(init) + multiset{x};
    assert multiset(b) == multiset(before) + multiset{x} + multiset(after);
    assert multiset(before + after) == multiset(before) + multiset(after);
    assert multiset(init) == multiset(a) - multiset{x};
    assert multiset(before + after) == multiset(b) - multiset{x};
  }

  /** Per-key sums depend only on which lines there are, with their multiplicities. */
  lemma {:induction false} GroupSumPermutation(a: seq<IngredientForRecipe>, b: seq<IngredientForRecipe>, k: GroupKey)
    requires multiset(a) == multiset(b)
    ensures GroupSum(a, k) == GroupSum(b, k)
  {
    if a == [] {
      assert |b| == |multiset(b)| == 0;
    } else {
      var init, x := a[..|a| - 1], a[|a| - 1];
      assert x in multiset(b);
      var j :| 0 <= j < |b| && b[j] == x;
      var before, after := b[..j], b[j + 1..];
      RemoveMatching(a, b, j);
      GroupSumPermutation(init, before + after, k);
      assert a == init + [x];
      assert b == before + ([x] + after);
      GroupSumAppend(init, [x], k);
      GroupSumAppend(before, after, k);
      GroupSumAppend(before, [x] + after, k);
      GroupSumAppend([x], after, k);
    }
  }

  lemma KeysOfLinesPermutation(a: seq<IngredientForRecipe>, b: seq<IngredientForRecipe>)
    requires multiset(a) == multiset(b)
    ensures KeysOfLines(a) == KeysOfLines(b)
  {
    forall x | x in KeysOfLines(a) ensures x in KeysOfLines(b) {
      var i :| 0 <= i < |a| && KeyOf(a[i]) == x;
      assert a[i] in multiset(b);
      var j :| 0 <= j < |b| && b[j] == a[i];
    }
    forall x | x in KeysOfLines(b) ensures x in KeysOfLines(a) {
      var j :| 0 <= j < |b| && KeyOf(b[j]) == x;
      assert b[j] in multiset(a);
      var i :| 0 <= i < |a| && a[i] == b[j];
    }
  }

  /** GROUP BY gives the same rows whatever order the table returns its lines in. */
  lemma AggregateIgnoresOrder(a: seq<IngredientForRecipe>, b: seq<IngredientForRecipe>)
    requires multiset(a) == multiset(b)
    ensures Aggregate(a) == Aggregate(b)
  {
    AggregateIsExact(a);
    AggregateIsExact(b);
    KeysOfLinesPermutation(a, b);
    forall k ensures TotalOf(Aggregate(a), k) == TotalOf(Aggregate(b), k) {
      GroupSumPermutation(a, b, k);
    }
    SortedGroupsUnique(Aggregate(a), Aggregate(b));
  }

  // ---------------------------------------------------------------------------
  // Which lines take part: the recipes in the user's shopping list
  // ---------------------------------------------------------------------------

  /** `recipe__shopping_list__user = user`: the line's recipe is in the user's shopping list. */
  predicate InCart(cart: set<Pair>, user: UserId, line: IngredientForRecipe) {
    Pair(user, line.recipe) in cart
  }

  function Selected(lines: seq<IngredientForRecipe>, cart: set<Pair>, user: UserId): (r: seq<IngredientForRecipe>)
    ensures forall x :: x in r <==> x in lines && InCart(cart, user, x)
  {
    if lines == [] then []
    else
      var last := lines[|lines| - 1];
      Selected(lines[..|lines| - 1], cart, user) + (if InCart(cart, user, last) then [last] else [])
  }

  /** The keys of the lines whose recipe is in the user's shopping list. */
  function KeysInCart(lines: seq<IngredientForRecipe>, cart: set<Pair>, user: UserId): set<GroupKey> {
    set i | 0 <= i < |lines| && InCart(cart, user, lines[i]) :: KeyOf(lines[i])
  }

  /** Reference total: the amounts of the lines with key `k` whose recipe is in the user's shopping list. */
  function CartSum(lines: seq<IngredientForRecipe>, cart: set<Pair>, user: UserId, k: GroupKey): nat {
    if lines == [] then 0
    else
      var last := lines[|lines| - 1];
      CartSum(lines[..|lines| - 1], cart, user, k)
        + (if InCart(cart, user, last) && KeyOf(last) == k then last.amount else 0)
  }

  /** Reference grand total: the amounts of all lines whose recipe is in the user's shopping list. */
  function CartAmount(lines: seq<IngredientForRecipe>, cart: set<Pair>, user: UserId): nat {
    if lines == [] then 0
    else
      var last := lines[|lines| - 1];
      CartAmount(lines[..|lines| - 1], cart, user) + (if InCart(cart, user, last) then last.amount else 0)
  }

  /** The keys of the selected lines are the keys of the cart lines. */
  lemma SelectedKeys(lines: seq<IngredientForRecipe>, cart: set<Pair>, user: UserId)
    ensures KeysOfLines(Selected(lines, cart, user)) == KeysInCart(lines, cart, user)
  {
    var s := Selected(lines, cart, user);
    forall x | x in KeysOfLines(s) ensures x in KeysInCart(lines, cart, user) {
      var i :| 0 <= i < |s| && KeyOf(s[i]) == x;
      assert s[i] in lines && InCart(cart, user, s[i]);
      var j :| 0 <= j < |lines| && lines[j] == s[i];
    }
    forall x | x in KeysInCart(lines, cart, user) ensures x in KeysOfLines(s) {
      var j :| 0 <= j < |lines| && InCart(cart, user, lines[j]) && KeyOf(lines[j]) == x;
      assert lines[j] in s;
      var i :| 0 <= i < |s| && s[i] == lines[j];
    }
  }

  /** The per-key and overall sums of the selected lines are those of the cart lines. */
  lemma {:induction false} SelectedSums(lines: seq<IngredientForRecipe>, cart: set<Pair>, user: UserId)
    ensures forall k :: GroupSum(Selected(lines, cart, user), k) == CartSum(lines, cart, user, k)
    ensures SumAmounts(Selected(lines, cart, user)) == CartAmount(lines, cart, user)
  {
    var s := Selected(lines, cart, user);
    if lines != [] {
      var init := lines[..|lines| - 1];
      var last := lines[|lines| - 1];
      var si := Selected(init, cart, user);
      SelectedSums(init, cart, user);
      if InCart(cart, user, last) {
        assert s == si + [last];
        assert s[..|s| - 1] == si;
      } else {
        assert s == si;
      }
    }
  }

  /** Selecting keeps each cart line as often as it occurs and drops the others. */
  lemma {:induction false} SelectedMultiset(lines: seq<IngredientForRecipe>, cart: set<Pair>, user: UserId)
    ensures forall x :: multiset(Selected(lines, cart, user))[x] == if InCart(cart, user, x) then multiset(lines)[x] else 0
  {
    if lines != [] {
      var init, last := lines[..|lines| - 1], lines[|lines| - 1];
      SelectedMultiset(init, cart, user);
      assert lines == init + [last];
      assert multiset(lines) == multiset(init) + multiset{last};
    }
  }

  /** Permuted inputs give permuted selections. */
  lemma SelectedPermutation(a: seq<IngredientForRecipe>, b: seq<IngredientForRecipe>, cart: set<Pair>, user: UserId)
    requires multiset(a) == multiset(b)
    ensures multiset(Selected(a, cart, user)) == multiset(Selected(b, cart, user))
  {
    SelectedMultiset(a, cart, user);
    SelectedMultiset(b, cart, user);
  }

  // ---------------------------------------------------------------------------
  // The report
  // ---------------------------------------------------------------------------

  /** The query behind the report: the user's cart lines, grouped, summed and ordered. */
  function ShoppingTotals(lines: seq<IngredientForRecipe>, cart: set<Pair>, user: UserId): seq<Group> {
    Aggregate(Selected(lines, cart, user))
  }

  /** One line of the report: "{number}. {name} - {total} {unit} \n". */
  function FormatLine(number: nat, g: Group): string {
    Decimal(number) + LineAfterNumber(g)
  }

  /** The part of a report line after its number: ". {name} - {total} {unit} \n". */
  function LineAfterNumber(g: Group): string {
    ". " + g.key.name + " - " + Decimal(g.total) + " " + g.key.unit + " \n"
  }

  /** The groups rendered in order, numbered from 1. */
  function Rendered(gs: seq<Group>): seq<string> {
    seq(|gs|, i requires 0 <= i < |gs| => FormatLine(i + 1, gs[i]))
  }

  function ShoppingReport(lines: seq<IngredientForRecipe>, cart: set<Pair>, user: UserId): seq<string> {
    Rendered(ShoppingTotals(lines, cart, user))
  }

  /** `download_shopping_cart`: runs the query, then appends one rendered line per group. */
  method DownloadShoppingCart(lines: seq<IngredientForRecipe>, cart: set<Pair>, user: UserId)
    returns (shoppingList: seq<string>)
    ensures shoppingList == ShoppingReport(lines, cart, user)
  {
    var allIngredients := ShoppingTotals(lines, cart, user);
    shoppingList := [];
    var number := 1;
    for i := 0 to |allIngredients|
      invariant number == i + 1
      invariant |shoppingList| == i
      invariant forall k :: 0 <= k < i ==> shoppingList[k] == FormatLine(k + 1, allIngredients[k])
    {
      shoppingList := shoppingList + [FormatLine(number, allIngredients[i])];
      number := number + 1;
    }
  }

  // ---------------------------------------------------------------------------
  // What the report promises
  // ---------------------------------------------------------------------------

  /** One group per distinct (name, unit) among the cart's lines; the same name with two units gives two groups. */
  lemma ShoppingTotalsOnePerKey(lines: seq<IngredientForRecipe>, cart: set<Pair>, user: UserId)
    ensures Keys(ShoppingTotals(lines, cart, user)) == KeysInCart(lines, cart, user)
    ensures |ShoppingTotals(lines, cart, user)| == |KeysInCart(lines, cart, user)|
    ensures forall i, j :: 0 <= i < j < |ShoppingTotals(lines, cart, user)| ==>
      ShoppingTotals(lines, cart, user)[i].key != ShoppingTotals(lines, cart, user)[j].key
  {
    var gs := ShoppingTotals(lines, cart, user);
    AggregateIsExact(Selected(lines, cart, user));
    SelectedKeys(lines, cart, user);
    SelectedSums(lines, cart, user);
    SortedGroupCount(gs);
    forall i, j | 0 <= i < j < |gs| ensures gs[i].key != gs[j].key {
      KeyLessIrreflexive(gs[i].key);
    }
  }

  /** Each group's total is the sum of the amounts of exactly its cart lines: nothing lost, nothing counted twice. */
  lemma ShoppingTotalsSumGroups(lines: seq<IngredientForRecipe>, cart: set<Pair>, user: UserId)
    ensures forall i :: 0 <= i < |ShoppingTotals(lines, cart, user)| ==>
      ShoppingTotals(lines, cart, user)[i].total == CartSum(lines, cart, user, ShoppingTotals(lines, cart, user)[i].key)
    ensures SumTotals(ShoppingTotals(lines, cart, user)) == CartAmount(lines, cart, user)
  {
    var gs := ShoppingTotals(lines, cart, user);
    AggregateIsExact(Selected(lines, cart, user));
    SelectedKeys(lines, cart, user);
    SelectedSums(lines, cart, user);
    forall i | 0 <= i < |gs| ensures gs[i].total == CartSum(lines, cart, user, gs[i].key) {
      TotalOfSortedGroup(gs, i);
    }
  }

  /** Groups come in ascending name order (groups of one name are ordered by unit). */
  lemma ShoppingTotalsOrderedByName(lines: seq<IngredientForRecipe>, cart: set<Pair>, user: UserId)
    ensures forall i, j :: 0 <= i < j < |ShoppingTotals(lines, cart, user)| ==>
      var a, b := ShoppingTotals(lines, cart, user)[i].key, ShoppingTotals(lines, cart, user)[j].key;
      LexLess(a.name, b.name) || (a.name == b.name && LexLess(a.unit, b.unit))
  {
    AggregateIsExact(Selected(lines, cart, user));
  }

  /** Lines outside the user's shopping list do not change the report. */
  lemma ShoppingReportIgnoresOtherRecipes(lines: seq<IngredientForRecipe>, cart: set<Pair>, user: UserId, extra: IngredientForRecipe)
    requires !InCart(cart, user, extra)
    ensures ShoppingReport(lines + [extra], cart, user) == ShoppingReport(lines, cart, user)
  {
    assert (lines + [extra])[..|lines|] == lines;
    assert Selected(lines + [extra], cart, user) == Selected(lines, cart, user);
  }

  /** The report does not depend on the order in which the database returns the lines. */
  lemma ShoppingReportIgnoresOrder(lines: seq<IngredientForRecipe>, reordered: seq<IngredientForRecipe>, cart: set<Pair>, user: UserId)
    requires multiset(lines) == multiset(reordered)
    ensures ShoppingReport(lines, cart, user) == ShoppingReport(reordered, cart, user)
  {
    SelectedPermutation(lines, reordered, cart, user);
    AggregateIgnoresOrder(Selected(lines, cart, user), Selected(reordered, cart, user));
  }

  /** The report is empty exactly when no line belongs to a recipe in the user's shopping list. */
  lemma ShoppingReportEmpty(lines: seq<IngredientForRecipe>, cart: set<Pair>, user: UserId)
    ensures ShoppingReport(lines, cart, user) == [] <==> forall x :: x in lines ==> !InCart(cart, user, x)
  {
    ShoppingTotalsOnePerKey(lines, cart, user);
    if exists x :: x in lines && InCart(cart, user, x) {
      var x :| x in lines && InCart(cart, user, x);
      var i :| 0 <= i < |lines| && lines[i] == x;
      assert KeyOf(x) in KeysInCart(lines, cart, user);
    } else {
      assert KeysInCart(lines, cart, user) == {};
    }
  }

  /** A rendered line starts with its number followed by ". " and ends with " \n". */
  lemma FormatLineFrame(number: nat, g: Group)
    ensures ParseDecimal(LeadingDigits(FormatLine(number, g))) == number
    ensures FormatLine(number, g)[|Decimal(number)|..|Decimal(number)| + 2] == ". "
    ensures var s := FormatLine(number, g); s[|s| - 2..] == " \n"
  {
    var d, t := Decimal(number), LineAfterNumber(g);
    LineAfterNumberFrame(g);
    assert FormatLine(number, g) == d + t;
    assert (d + t)[|d|..|d| + 2] == t[..2];
    assert (d + t)[|d + t| - 2..] == t[|t| - 2..];
    LeadingDigitsOfConcat(d, t);
    ParseDecimalOfDecimal(number);
  }

  lemma LineAfterNumberFrame(g: Group)
    ensures var t := LineAfterNumber(g);
      |t| >= 4 && t[..2] == ". " && t[|t| - 2..] == " \n"
  {
    var t := LineAfterNumber(g);
    var mid := g.key.name + " - " + Decimal(g.total) + " " + g.key.unit;
    assert t == ". " + mid + " \n";
  }

  /** Line `i` of the report starts with the number i + 1 followed by ". ", and ends with " \n". */
  lemma ShoppingReportNumbering(lines: seq<IngredientForRecipe>, cart: set<Pair>, user: UserId, i: nat)
    requires i < |ShoppingReport(lines, cart, user)|
    ensures ParseDecimal(LeadingDigits(ShoppingReport(lines, cart, user)[i])) == i + 1
    ensures ShoppingReport(lines, cart, user)[i][|Decimal(i + 1)|..|Decimal(i + 1)| + 2] == ". "
    ensures var s := ShoppingReport(lines, cart, user)[i]; s[|s| - 2..] == " \n"
  {
    var gs := ShoppingTotals(lines, cart, user);
    assert ShoppingReport(lines, cart, user)[i] == FormatLine(i + 1, gs[i]);
    FormatLineFrame(i + 1, gs[i]);
  }

  /** The worked example of two recipes sharing flour. */
  lemma FlourAndSaltExample()
    ensures
      var flour, salt := Ingredient(1, "Flour", "g"), Ingredient(2, "Salt", "g");
      var lines := [IngredientForRecipe(flour, 10, 200), IngredientForRecipe(flour, 11, 150), IngredientForRecipe(salt, 11, 5)];
      ShoppingReport(lines, {Pair(7, 10), Pair(7, 11)}, 7) == ["1. Flour - 350 g \n", "2. Salt - 5 g \n"]
  {
    var flour, salt := Ingredient(1, "Flour", "g"), Ingredient(2, "Salt", "g");
    var lines := [IngredientForRecipe(flour, 10, 200), IngredientForRecipe(flour, 11, 150), IngredientForRecipe(salt, 11, 5)];
    var gs := [Group(GroupKey("Flour", "g"), 350), Group(GroupKey("Salt", "g"), 5)];
    ExampleTotals(lines, {Pair(7, 10), Pair(7, 11)});
    ExampleRendering(gs);
  }

  lemma ExampleTotals(lines: seq<IngredientForRecipe>, cart: set<Pair>)
    requires cart == {Pair(7, 10), Pair(7, 11)}
    requires lines == [
      IngredientForRecipe(Ingredient(1, "Flour", "g"), 10, 200),
      IngredientForRecipe(Ingredient(1, "Flour", "g"), 11, 150),
      IngredientForRecipe(Ingredient(2, "Salt", "g"), 11, 5)]
    ensures ShoppingTotals(lines, cart, 7) == [Group(GroupKey("Flour", "g"), 350), Group(GroupKey("Salt", "g"), 5)]
  {
    var l1, l2 := lines[..1], lines[..2];
    assert l1[..0] == [] && l2[..1] == l1 && lines[..2] == l2;
    assert Selected(l1, cart, 7) == l1;
    assert Selected(l2, cart, 7) == l2;
    assert Selected(lines, cart, 7) == lines;
    var flourKey, saltKey := GroupKey("Flour", "g"), GroupKey("Salt", "g");
    assert Aggregate(l1) == [Group(flourKey, 200)];
    assert Aggregate(l2) == [Group(flourKey, 350)];
    assert KeyLess(flourKey, saltKey) by {
      assert LexLess("Flour", "Salt");
    }
    assert !KeyLess(saltKey, flourKey) && saltKey != flourKey by {
      KeyLessIrreflexive(flourKey);
      LexLessAsymmetric("Flour", "Salt");
    }
    assert Aggregate(lines) == AddLine([Group(flourKey, 350)], saltKey, 5);
    assert AddLine([], saltKey, 5) == [Group(saltKey, 5)];
    assert AddLine([Group(flourKey, 350)], saltKey, 5) == [Group(flourKey, 350)] + AddLine([], saltKey, 5);
  }

  lemma ExampleRendering(gs: seq<Group>)
    requires gs == [Group(GroupKey("Flour", "g"), 350), Group(GroupKey("Salt", "g"), 5)]
    ensures Rendered(gs) == ["1. Flour - 350 g \n", "2. Salt - 5 g \n"]
  {
    assert Decimal(350) == "350" by {
      assert Decimal(35) == "35";
    }
    assert Decimal(1) == "1" && Decimal(2) == "2" && Decimal(5) == "5";
    assert FormatLine(1, gs[0]) == "1. Flour - 350 g \n";
    assert FormatLine(2, gs[1]) == "2. Salt - 5 g \n";
    assert Rendered(gs) == [FormatLine(1, gs[0]), FormatLine(2, gs[1])];
  }
}
