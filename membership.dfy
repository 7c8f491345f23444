/**
 * The favourite, shopping-list and subscription tables and the view actions
 * that add a row to them or delete one. Each table is a list of
 * (user, target) rows kept free of duplicates by its unique constraint; the
 * target is a recipe for the first two tables and an author for the third.
 */
module Membership {
  import opened Models

  /** What a POST to `favorite` or `shopping_cart` answers. */
  datatype AddOutcome =
    | Created         // 201: the row was saved
    | TargetInvalid   // 400 from the serializer: no object with that key
    | AlreadyPresent  // 400 from the serializer: the unique constraint would break

  /** What a DELETE to `favorite`, `shopping_cart` or `subscribe` answers. */
  datatype RemoveOutcome =
    | Deleted         // 204: the row is gone
    | TargetNotFound  // 404 from get_object_or_404 on the recipe or author
    | NotPresent      // 400: the user had no such row

  /** The rows other than `p`, in their order. */
  function Without(rows: seq<Pair>, p: Pair): (r: seq<Pair>)
    ensures forall q :: q in r <==> q in rows && q != p
    ensures UniquePairs(rows) ==> UniquePairs(r)
    ensures UniquePairs(rows) && p in rows ==> |r| == |rows| - 1
    ensures p !in rows ==> r == rows
  {
    if rows == [] then []
    else
      var rest := Without(rows[1..], p);
      ConsUnique(rows[0], rows[1..]);
      ConsUnique(rows[0], rest);
      (if rows[0] == p then [] else [rows[0]]) + rest
  }

  lemma ConsUnique(x: Pair, rest: seq<Pair>)
    ensures UniquePairs([x] + rest) <==> x !in rest && UniquePairs(rest)
  {
    var r := [x] + rest;
    if x !in rest && UniquePairs(rest) {
      forall i, j | 0 <= i < j < |r| ensures r[i] != r[j] {
        assert r[j] == rest[j - 1];
        if i > 0 {
          assert r[i] == rest[i - 1];
        }
      }
    }
    if UniquePairs(r) {
      forall i, j | 0 <= i < j < |rest| ensures rest[i] != rest[j] {
        assert rest[i] == r[i + 1] && rest[j] == r[j + 1];
      }
      forall j | 0 <= j < |rest| ensures rest[j] != x {
        assert rest[j] == r[j + 1] && r[0] == x;
      }
    }
  }

  lemma AppendKeepsUnique(rows: seq<Pair>, p: Pair)
    requires UniquePairs(rows) && p !in rows
    ensures UniquePairs(rows + [p])
  {
    var r := rows + [p];
    forall i, j | 0 <= i < j < |r| ensures r[i] != r[j] {
      if j == |rows| {
        assert r[i] == rows[i];
      }
    }
  }

  class MembershipTable {
    var rows: seq<Pair>

    /** The unique constraint on (user, target). */
    ghost predicate Valid()
      reads this
    {
      UniquePairs(rows)
    }

    function Pairs(): set<Pair>
      reads this
    {
      set p | p in rows
    }

    constructor ()
      ensures Valid() && rows == []
    {
      rows := [];
    }

    /** `filter(user=..., <target>=...).exists()`. */
    method Contains(user: UserId, target: nat) returns (found: bool)
      ensures found <==> Pair(user, target) in Pairs()
    {
      found := Pair(user, target) in rows;
    }

    /**
     * `favorite` / `shopping_cart` (POST): the serializer checks that the
     * target exists and that the pair is new, then the row is saved.
     */
    method Add(user: UserId, target: nat, existing: set<nat>) returns (outcome: AddOutcome)
      requires Valid()
      modifies this
      ensures Valid()
      ensures outcome == if target !in existing then TargetInvalid
                         else if Pair(user, target) in old(Pairs()) then AlreadyPresent
                         else Created
      ensures rows == if outcome == Created then old(rows) + [Pair(user, target)] else old(rows)
      ensures Pairs() == if target in existing then old(Pairs()) + {Pair(user, target)} else old(Pairs())
    {
      var p := Pair(user, target);
      if target !in existing {
        return TargetInvalid;
      }
      if p in rows {
        return AlreadyPresent;
      }
      AppendKeepsUnique(rows, p);
      rows := rows + [p];
      return Created;
    }

    /**
     * `favorite_delete`, `shopping_cart_delete` and `unsubscribe`: a missing
     * recipe or author is a 404 first; then an absent pair is a 400 with no
     * change, and a present one is deleted and nothing else is.
     */
    method Remove(user: UserId, target: nat, existing: set<nat>) returns (outcome: RemoveOutcome)
      requires Valid()
      modifies this
      ensures Valid()
      ensures outcome == if target !in existing then TargetNotFound
                         else if Pair(user, target) in old(Pairs()) then Deleted
                         else NotPresent
      ensures rows == if outcome == Deleted then Without(old(rows), Pair(user, target)) else old(rows)
      ensures outcome == Deleted ==> |rows| == |old(rows)| - 1
      ensures Pairs() == if target in existing then old(Pairs()) - {Pair(user, target)} else old(Pairs())
    {
      var p := Pair(user, target);
      if target !in existing {
        return TargetNotFound;
      }
      var check := p in rows;
      if !check {
        return NotPresent;
      }
      rows := Without(rows, p);
      return Deleted;
    }
  }

  /** Adding the same pair twice leaves one row; removing it twice fails the second time and changes nothing. */
  method AddTwiceRemoveTwice(user: UserId, recipe: RecipeId)
  {
    var table := new MembershipTable();
    var first := table.Add(user, recipe, {recipe});
    assert first == Created;
    var second := table.Add(user, recipe, {recipe});
    assert second == AlreadyPresent && table.rows == [Pair(user, recipe)];
    var removed := table.Remove(user, recipe, {recipe});
    assert removed == Deleted && table.rows == [];
    var again := table.Remove(user, recipe, {recipe});
    assert again == NotPresent && table.rows == [];
    var missing := table.Remove(user, recipe + 1, {recipe});
    assert missing == TargetNotFound;
  }
}
