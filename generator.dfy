/**
 * `parseIngredientsAndCreateProductList` of `src/api/fetchAndParseRecipes.js`:
 * one product per distinct ingredient title, in the order the titles
 * are first met, with consecutive ids from 1.
 */
module ProductGenerator {
  import opened Seqs
  import opened Recipes

  /** A generated product, without its random price, discount, rating, stock and images. */
  datatype NewProduct = NewProduct(id: int, title: string, description: string, brand: string, category: string)

  /** The product made for `title` with id `id`. */
  function MakeProduct(id: int, title: string): NewProduct
  {
    NewProduct(id, title, "Product information for " + title, "Generic", "groceries")
  }

  /** Every ingredient of every recipe, recipes in order and ingredients in order. */
  function Ingredients(recipes: seq<Recipe>): seq<string>
    decreases |recipes|
  {
    if recipes == [] then [] else Ingredients(recipes[..|recipes| - 1]) + recipes[|recipes| - 1].ingredients
  }

  /** Titles are compared exactly, as `product.title === ingredient` does. */
  function SameTitle(): string -> string
  {
    (s: string) => s
  }

  /** The distinct titles in first-seen order. */
  function Titles(recipes: seq<Recipe>): seq<string>
  {
    DedupBy(Ingredients(recipes), SameTitle())
  }

  /** The products for a list of titles, numbered from 1. */
  function Numbered(titles: seq<string>): seq<NewProduct>
  {
    seq(|titles|, i requires 0 <= i < |titles| => MakeProduct(i + 1, titles[i]))
  }

  /** Every ingredient of every recipe is met by the flattening. */
  lemma {:induction false} IngredientsContain(recipes: seq<Recipe>, r: nat, k: nat)
    requires r < |recipes| && k < |recipes[r].ingredients|
    ensures recipes[r].ingredients[k] in Ingredients(recipes)
    decreases |recipes|
  {
    var init := recipes[..|recipes| - 1];
    if r < |recipes| - 1 {
      assert init[r] == recipes[r];
      IngredientsContain(init, r, k);
    }
  }

  /** Numbering one more title appends its product. */
  lemma NumberedSnoc(titles: seq<string>, title: string)
    ensures Numbered(titles + [title]) == Numbered(titles) + [MakeProduct(|titles| + 1, title)]
  {
  }

  /** The generated products name their titles: `products.find(...)` succeeds exactly on a known title. */
  lemma FindTitle(titles: seq<string>, ingredient: string)
    ensures (exists i :: 0 <= i < |Numbered(titles)| && Numbered(titles)[i].title == ingredient) ==
      HasKey(titles, SameTitle(), ingredient)
  {
    var ps := Numbered(titles);
    assert forall i :: 0 <= i < |ps| ==> ps[i].title == titles[i];
  }

  /** The inner loop, over one recipe's ingredients. */
  method AddIngredients(products: seq<NewProduct>, idCounter: int, ghost done: seq<string>, ingredients: seq<string>)
    returns (products': seq<NewProduct>, idCounter': int)
    requires products == Numbered(DedupBy(done, SameTitle())) && idCounter == |products| + 1
    ensures products' == Numbered(DedupBy(done + ingredients, SameTitle())) && idCounter' == |products'| + 1
  {
    products', idCounter' := products, idCounter;
    var k := 0;
    assert done + ingredients[..0] == done;
    while k < |ingredients|
      invariant 0 <= k <= |ingredients|
      invariant products' == Numbered(DedupBy(done + ingredients[..k], SameTitle()))
      invariant idCounter' == |products'| + 1
    {
      var ingredient := ingredients[k];
      ghost var seen := done + ingredients[..k + 1];
      assert seen[..|seen| - 1] == done + ingredients[..k] && seen[|seen| - 1] == ingredient;
      ghost var titles := DedupBy(done + ingredients[..k], SameTitle());
      FindTitle(titles, ingredient);
      var existing := exists i :: 0 <= i < |products'| && products'[i].title == ingredient;
      if !existing {
        var newProduct := MakeProduct(idCounter', ingredient);
        idCounter' := idCounter' + 1;
        NumberedSnoc(titles, ingredient);
        products' := products' + [newProduct];
      }
      k := k + 1;
    }
    assert ingredients[..k] == ingredients;
  }

  /** The loop over recipes and their ingredients. */
  method ParseIngredientsAndCreateProductList(recipes: seq<Recipe>) returns (products: seq<NewProduct>)
    ensures products == Numbered(Titles(recipes))
  {
    products := [];
    var idCounter := 1;
    var r := 0;
    while r < |recipes|
      invariant 0 <= r <= |recipes|
      invariant products == Numbered(DedupBy(Ingredients(recipes[..r]), SameTitle()))
      invariant idCounter == |products| + 1
    {
      products, idCounter := AddIngredients(products, idCounter, Ingredients(recipes[..r]), recipes[r].ingredients);
      assert recipes[..r + 1][..r] == recipes[..r];
      r := r + 1;
    }
    assert recipes[..r] == recipes;
  }

  /** No two products share a title. */
  lemma TitlesDistinct(recipes: seq<Recipe>)
    ensures var ps := Numbered(Titles(recipes));
      forall i, j :: 0 <= i < j < |ps| ==> ps[i].title != ps[j].title
  {
    DedupByDistinct(Ingredients(recipes), SameTitle());
  }

  /** Every ingredient of every recipe is the title of some product. */
  lemma EveryIngredientHasProduct(recipes: seq<Recipe>, r: nat, k: nat)
    requires r < |recipes| && k < |recipes[r].ingredients|
    ensures var ps := Numbered(Titles(recipes));
      exists i :: 0 <= i < |ps| && ps[i].title == recipes[r].ingredients[k]
  {
    var all := Ingredients(recipes);
    IngredientsContain(recipes, r, k);
    DedupByCovers(all, SameTitle());
    var n :| 0 <= n < |all| && all[n] == recipes[r].ingredients[k];
    var i :| 0 <= i < |Titles(recipes)| && SameTitle()(Titles(recipes)[i]) == SameTitle()(all[n]);
    assert Numbered(Titles(recipes))[i].title == Titles(recipes)[i];
  }

  /**
   * The products appear in the order their titles are first met: each
   * title occurs in the flattening, and the first positions of the
   * titles strictly increase along the list. Each product carries the
   * fixed description, brand and category, with ids 1, 2, ... in list
   * order.
   */
  lemma ProductsInOrder(recipes: seq<Recipe>)
    ensures var all, ps := Ingredients(recipes), Numbered(Titles(recipes));
      |ps| == |Titles(recipes)| &&
      (forall i :: 0 <= i < |ps| ==> ps[i].title == Titles(recipes)[i] && HasKey(all, SameTitle(), ps[i].title)) &&
      (forall i, j :: 0 <= i < j < |ps| ==>
        FirstIndex(all, SameTitle(), ps[i].title) < FirstIndex(all, SameTitle(), ps[j].title)) &&
      forall i :: 0 <= i < |ps| ==>
        ps[i].id == i + 1 &&
        ps[i].description == "Product information for " + ps[i].title &&
        ps[i].brand == "Generic" && ps[i].category == "groceries"
  {
    DedupByFirstOccurrences(Ingredients(recipes), SameTitle());
  }

  /** Position `n` of `all` holds the first occurrence of its title. */
  predicate FirstMet(all: seq<string>, n: int)
  {
    0 <= n < |all| && forall k :: 0 <= k < n ==> all[k] != all[n]
  }

  /**
   * Every first occurrence of a title gets a product, and two first
   * occurrences get their products in the same order as they are met.
   */
  lemma FirstOccurrenceKept(recipes: seq<Recipe>, n: int, m: int)
    requires FirstMet(Ingredients(recipes), n) && FirstMet(Ingredients(recipes), m) && n < m
    ensures var all, ts := Ingredients(recipes), Titles(recipes);
      exists i, j :: 0 <= i < j < |ts| && ts[i] == all[n] && ts[j] == all[m]
  {
    var all, ts := Ingredients(recipes), Titles(recipes);
    var key := SameTitle();
    DedupByCovers(all, key);
    DedupByFirstOccurrences(all, key);
    var i :| 0 <= i < |ts| && key(ts[i]) == key(all[n]);
    var j :| 0 <= j < |ts| && key(ts[j]) == key(all[m]);
    assert FirstIndex(all, key, all[n]) == n;
    assert FirstIndex(all, key, all[m]) == m;
    assert i != j by {
      assert all[n] != all[m];
    }
  }

  /** No recipes, no products. */
  lemma NoRecipesNoProducts()
    ensures Numbered(Titles([])) == []
  {
  }
}
