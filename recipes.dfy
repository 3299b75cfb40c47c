/**
 * The recipe queries of `src/components/LucyChat.jsx`, with the recipe
 * lists the HTTP endpoints return taken as inputs: recipes that can be
 * made from the cart alone (`getRecipesMatchingCart`), recipes needing
 * the fewest extra ingredients (`getRecipesWithFewestAdditionalIngredients`)
 * and the three-way search union (`searchRecipes`).
 */
module Recipes {
  import opened Wrappers
  import opened Seqs

  /** A recipe as the recipe endpoints return it (only the fields the core reads). */
  datatype Recipe = Recipe(id: int, name: string, ingredients: seq<string>)

  /** Every ingredient of `recipe` is one of the cart titles. */
  predicate UsesOnly(recipe: Recipe, titles: seq<string>)
  {
    forall k :: 0 <= k < |recipe.ingredients| ==> recipe.ingredients[k] in titles
  }

  function CanMakeWith(titles: seq<string>): Recipe -> bool
  {
    (recipe: Recipe) => UsesOnly(recipe, titles)
  }

  /** `getRecipesMatchingCart(titles)` once the recipe list has arrived. */
  function MatchingCart(recipes: seq<Recipe>, titles: seq<string>): seq<Recipe>
  {
    Filter(recipes, CanMakeWith(titles))
  }

  /** Exactly the recipes made only of cart titles, each as often as listed, in their original order. */
  lemma MatchingCartSpec(recipes: seq<Recipe>, titles: seq<string>)
    ensures forall r :: r in MatchingCart(recipes, titles) <==> r in recipes && UsesOnly(r, titles)
    ensures forall r :: multiset(MatchingCart(recipes, titles))[r] == (if UsesOnly(r, titles) then multiset(recipes)[r] else 0)
    ensures IsSubsequence(MatchingCart(recipes, titles), recipes)
  {
    FilterSpec(recipes, CanMakeWith(titles));
  }

  function NotInCart(titles: seq<string>): string -> bool
  {
    (ingredient: string) => ingredient !in titles
  }

  /** `recipe.ingredients.filter(i => !cartItems.includes(i)).length`. */
  function MissingCount(recipe: Recipe, titles: seq<string>): nat
  {
    |Filter(recipe.ingredients, NotInCart(titles))|
  }

  /**
   * `Math.min(...counts)` over the missing counts; `None` stands for the
   * `Infinity` that `Math.min()` returns on an empty list.
   */
  function MinMissing(recipes: seq<Recipe>, titles: seq<string>): (m: Option<nat>)
    ensures m.None? <==> recipes == []
    ensures m.Some? ==> exists i :: 0 <= i < |recipes| && MissingCount(recipes[i], titles) == m.value
    ensures m.Some? ==> forall i :: 0 <= i < |recipes| ==> m.value <= MissingCount(recipes[i], titles)
  {
    if recipes == [] then None
    else
      var c := MissingCount(recipes[0], titles);
      match MinMissing(recipes[1..], titles)
      case None => Some(c)
      case Some(rest) =>
        assert forall i :: 1 <= i < |recipes| ==> recipes[i] == recipes[1..][i - 1];
        if c <= rest then Some(c) else Some(rest)
  }

  function AchievesMin(recipes: seq<Recipe>, titles: seq<string>): Recipe -> bool
  {
    var m := MinMissing(recipes, titles);
    (recipe: Recipe) => Some(MissingCount(recipe, titles)) == m
  }

  /** `getRecipesWithFewestAdditionalIngredients(titles)` once the recipe list has arrived. */
  function FewestAdditional(recipes: seq<Recipe>, titles: seq<string>): seq<Recipe>
  {
    Filter(recipes, AchievesMin(recipes, titles))
  }

  /** A recipe is kept exactly when its missing count is the least among all recipes. */
  lemma AchievesMinIff(recipes: seq<Recipe>, titles: seq<string>, r: Recipe)
    requires r in recipes
    ensures AchievesMin(recipes, titles)(r) <==>
      forall s :: s in recipes ==> MissingCount(r, titles) <= MissingCount(s, titles)
  {
    var m := MinMissing(recipes, titles);
    if forall s :: s in recipes ==> MissingCount(r, titles) <= MissingCount(s, titles) {
      var i :| 0 <= i < |recipes| && MissingCount(recipes[i], titles) == m.value;
      assert recipes[i] in recipes;
    }
    if AchievesMin(recipes, titles)(r) {
      forall s | s in recipes ensures MissingCount(r, titles) <= MissingCount(s, titles) {
        var j :| 0 <= j < |recipes| && recipes[j] == s;
      }
    }
  }

  /** `r` is listed and no listed recipe misses fewer ingredients. */
  predicate AmongFewest(recipes: seq<Recipe>, titles: seq<string>, r: Recipe)
  {
    r in recipes && forall s :: s in recipes ==> MissingCount(r, titles) <= MissingCount(s, titles)
  }

  /**
   * The result holds every recipe whose missing count is the least one
   * and no other recipe, each as often as listed, in input order.
   */
  lemma FewestAdditionalSpec(recipes: seq<Recipe>, titles: seq<string>)
    ensures forall r :: r in FewestAdditional(recipes, titles) <==> AmongFewest(recipes, titles, r)
    ensures forall r ::
      multiset(FewestAdditional(recipes, titles))[r] == if AmongFewest(recipes, titles, r) then multiset(recipes)[r] else 0
    ensures IsSubsequence(FewestAdditional(recipes, titles), recipes)
  {
    FilterSpec(recipes, AchievesMin(recipes, titles));
    forall r | r in recipes {
      AchievesMinIff(recipes, titles, r);
    }
    forall r | r !in recipes ensures multiset(FewestAdditional(recipes, titles))[r] == 0 {
      assert multiset(recipes)[r] == 0;
    }
  }

  /** The result is empty only when there are no recipes at all. */
  lemma FewestAdditionalEmpty(recipes: seq<Recipe>, titles: seq<string>)
    ensures FewestAdditional(recipes, titles) == [] <==> recipes == []
  {
    if recipes != [] {
      var m := MinMissing(recipes, titles);
      var i :| 0 <= i < |recipes| && MissingCount(recipes[i], titles) == m.value;
      FilterSpec(recipes, AchievesMin(recipes, titles));
      assert AchievesMin(recipes, titles)(recipes[i]);
      assert recipes[i] in FewestAdditional(recipes, titles);
    }
  }

  /**
   * The example of a cart holding A and B with recipes needing
   * {A, B, C}, {A, B} and {A, D, E}: only the second is returned.
   */
  lemma FewestAdditionalExample(a: string, b: string, c: string, d: string, e: string, r1: Recipe, r2: Recipe, r3: Recipe)
    requires |{a, b, c, d, e}| == 5
    requires r1.ingredients == [a, b, c] && r2.ingredients == [a, b] && r3.ingredients == [a, d, e]
    requires r1 != r2 && r3 != r2
    ensures FewestAdditional([r1, r2, r3], [a, b]) == [r2]
  {
    var titles := [a, b];
    assert MissingCount(r2, titles) == 0 by {
      assert Filter([b], NotInCart(titles)) == [];
      assert Filter(r2.ingredients, NotInCart(titles)) == [];
    }
    assert MissingCount(r1, titles) == 1 by {
      assert Filter([c], NotInCart(titles)) == [c];
      assert Filter(r1.ingredients, NotInCart(titles)) == [c];
    }
    assert MissingCount(r3, titles) == 2 by {
      assert Filter([e], NotInCart(titles)) == [e];
      assert Filter([d, e], NotInCart(titles)) == [d, e];
      assert Filter(r3.ingredients, NotInCart(titles)) == [d, e];
    }
    var rs := [r1, r2, r3];
    assert rs[1..] == [r2, r3] && rs[1..][1..] == [r3];
    assert MinMissing(rs, titles) == Some(0);
    var f := AchievesMin(rs, titles);
    assert Filter([r3], f) == [];
    assert Filter([r2, r3], f) == [r2];
  }

  function RecipeId(recipe: Recipe): int
  {
    recipe.id
  }

  /** The keys of the `uniqueRecipes` map holding `recipes`. */
  function Ids(recipes: seq<Recipe>): set<int>
  {
    set r | r in recipes :: r.id
  }

  lemma IdsHasKey(recipes: seq<Recipe>, id: int)
    ensures id in Ids(recipes) <==> HasKey(recipes, RecipeId, id)
  {
    if id in Ids(recipes) {
      var r :| r in recipes && r.id == id;
      var i :| 0 <= i < |recipes| && recipes[i] == r;
    }
  }

  /** Inserting one more recipe into the id-keyed map: kept exactly when its id is new. */
  lemma UniqueStep(prefix: seq<Recipe>, r: Recipe)
    ensures var d := DedupBy(prefix, RecipeId);
      DedupBy(prefix + [r], RecipeId) == (if r.id in Ids(d) then d else d + [r])
    ensures Ids(DedupBy(prefix, RecipeId) + [r]) == Ids(DedupBy(prefix, RecipeId)) + {r.id}
  {
    var s := prefix + [r];
    assert s[..|s| - 1] == prefix && s[|s| - 1] == r;
    IdsHasKey(DedupBy(prefix, RecipeId), r.id);
  }

  lemma PrefixStep(earlier: seq<Recipe>, batch: seq<Recipe>, i: nat)
    requires i < |batch|
    ensures earlier + batch[..i + 1] == (earlier + batch[..i]) + [batch[i]]
  {
    assert batch[..i + 1] == batch[..i] + [batch[i]];
  }

  /** One iteration of `addToUniqueRecipes`: store `r` under its id unless that id is already a key. */
  method StoreRecipe(values: seq<Recipe>, keys: set<int>, ghost prefix: seq<Recipe>, r: Recipe)
    returns (values': seq<Recipe>, keys': set<int>)
    requires values == DedupBy(prefix, RecipeId) && keys == Ids(values)
    ensures values' == DedupBy(prefix + [r], RecipeId) && keys' == Ids(values')
  {
    UniqueStep(prefix, r);
    if r.id in keys {
      values', keys' := values, keys;
    } else {
      values', keys' := values + [r], keys + {r.id};
    }
  }

  /**
   * `addToUniqueRecipes(batch)`: for each recipe in turn, store it under
   * its id unless the map already has that id. The map is represented by
   * its values in insertion order and its key set.
   */
  method AddToUniqueRecipes(values: seq<Recipe>, keys: set<int>, ghost earlier: seq<Recipe>, batch: seq<Recipe>)
    returns (values': seq<Recipe>, keys': set<int>)
    requires values == DedupBy(earlier, RecipeId) && keys == Ids(values)
    ensures values' == DedupBy(earlier + batch, RecipeId) && keys' == Ids(values')
  {
    values', keys' := values, keys;
    var i := 0;
    assert earlier + batch[..0] == earlier;
    while i < |batch|
      invariant 0 <= i <= |batch|
      invariant values' == DedupBy(earlier + batch[..i], RecipeId)
      invariant keys' == Ids(values')
    {
      PrefixStep(earlier, batch, i);
      values', keys' := StoreRecipe(values', keys', earlier + batch[..i], batch[i]);
      i := i + 1;
    }
    assert batch[..|batch|] == batch;
  }

  /**
   * `searchRecipes(name)` once the free-text, tag and meal-type searches
   * have returned: the union of the three lists in that order, one
   * recipe per id, each the first one met with that id, ordered by
   * where each id is first met.
   */
  method SearchRecipes(byQuery: seq<Recipe>, byTag: seq<Recipe>, byMealType: seq<Recipe>)
    returns (found: seq<Recipe>)
    ensures found == DedupBy(byQuery + byTag + byMealType, RecipeId)
    ensures forall i, j :: 0 <= i < j < |found| ==> found[i].id != found[j].id
    ensures forall r :: r in byQuery + byTag + byMealType ==> r.id in Ids(found)
    ensures IsSubsequence(found, byQuery + byTag + byMealType)
    ensures forall i :: 0 <= i < |found| ==>
      HasKey(byQuery + byTag + byMealType, RecipeId, RecipeId(found[i])) &&
      found[i] == (byQuery + byTag + byMealType)[FirstIndex(byQuery + byTag + byMealType, RecipeId, RecipeId(found[i]))]
    ensures forall i, j :: 0 <= i < j < |found| ==>
      FirstIndex(byQuery + byTag + byMealType, RecipeId, RecipeId(found[i])) <
      FirstIndex(byQuery + byTag + byMealType, RecipeId, RecipeId(found[j]))
  {
    var values: seq<Recipe>, keys: set<int> := [], {};
    values, keys := AddToUniqueRecipes(values, keys, [], byQuery);
    assert [] + byQuery == byQuery;
    values, keys := AddToUniqueRecipes(values, keys, byQuery, byTag);
    values, keys := AddToUniqueRecipes(values, keys, byQuery + byTag, byMealType);
    found := values;
    var all := byQuery + byTag + byMealType;
    DedupByDistinct(all, RecipeId);
    DedupByCovers(all, RecipeId);
    DedupByOrder(all, RecipeId);
    DedupByFirstOccurrences(all, RecipeId);
    forall r | r in all ensures r.id in Ids(found) {
      var i :| 0 <= i < |all| && all[i] == r;
      IdsHasKey(found, r.id);
    }
  }

  /** Each recipe of the search union is the first one with its id across the three lists. */
  lemma SearchKeepsFirstSeen(byQuery: seq<Recipe>, byTag: seq<Recipe>, byMealType: seq<Recipe>)
    ensures var all := byQuery + byTag + byMealType;
      forall i :: 0 <= i < |all| && (forall j :: 0 <= j < i ==> all[j].id != all[i].id) ==>
        all[i] in DedupBy(all, RecipeId)
  {
    DedupByFirstSeen(byQuery + byTag + byMealType, RecipeId);
  }
}
