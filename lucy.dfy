/**
 * The chat pipeline of `src/components/LucyChat.jsx`, from a submitted
 * message to the reply turn: classification (module Intents), the
 * action dispatch of `sendMessageToLucy` with its cart mutations and
 * recipe queries, `formatRecipesResponse`, the poll loop over the
 * assistant run, and the conversation history.
 *
 * Every network call is an input: the recipe endpoints' answers
 * (`Services`) and the assistant's answers (`AssistantCalls`), each of
 * which may instead have thrown.
 */
module LucyChat {
  import opened Wrappers
  import opened Seqs
  import opened Strings
  import opened Catalog
  import opened CartContext
  import opened Recipes
  import opened Intents

  // ---------------------------------------------------------------
  // formatRecipesResponse and the destructuring that consumes it
  // ---------------------------------------------------------------

  /** What `formatRecipesResponse` returns: a bare string when nothing was found, else a pair. */
  datatype Formatted = NoRecipesFound | Found(names: string, recipes: seq<Recipe>)

  /** The string returned on an empty list. */
  const NoRecipesText: string := "No recipes found."

  /**
   * `responseMessageBackend` after `[tmp, responseMessageBackend] = ...`:
   * the recipe array, or, when a string was destructured, its second
   * character as a one-character string.
   */
  datatype Payload = RecipeList(list: seq<Recipe>) | Text(text: string)

  /** One element of `Object.values(responseMessageBackend)`, shown as a recipe card. */
  datatype Attached = RecipeCard(recipe: Recipe) | Character(c: char)

  function Names(recipes: seq<Recipe>): seq<string>
  {
    seq(|recipes|, i requires 0 <= i < |recipes| => recipes[i].name)
  }

  /** `formatRecipesResponse(recipes)`. */
  function FormatRecipesResponse(recipes: seq<Recipe>): Formatted
  {
    if recipes == [] then NoRecipesFound else Found(Join(Names(recipes), ", "), recipes)
  }

  /** `[tmp, responseMessageBackend] = formatted`; a string destructures into its first two characters. */
  function Destructure(f: Formatted): (string, Payload)
  {
    match f
    case NoRecipesFound => ([NoRecipesText[0]], Text([NoRecipesText[1]]))
    case Found(names, recipes) => (names, RecipeList(recipes))
  }

  /** `Object.values(responseMessageBackend)`: an array's elements, or a string's characters. */
  function ObjectValues(p: Payload): seq<Attached>
  {
    match p
    case RecipeList(rs) => seq(|rs|, i requires 0 <= i < |rs| => RecipeCard(rs[i]))
    case Text(s) => seq(|s|, i requires 0 <= i < |s| => Character(s[i]))
  }

  /**
   * With no recipes, the backend result sent to the assistant is `'N'`
   * and the reply turn carries the single character `'o'` as its
   * attachment list.
   */
  lemma FormatEmpty()
    ensures Destructure(FormatRecipesResponse([])) == ("N", Text("o"))
    ensures ObjectValues(Destructure(FormatRecipesResponse([])).1) == [Character('o')]
  {
  }

  /**
   * With recipes, the backend result names every recipe and the reply
   * turn carries one card per recipe, in order.
   */
  lemma FormatFound(recipes: seq<Recipe>)
    requires recipes != []
    ensures forall k :: 0 <= k < |recipes| ==> Contains(Destructure(FormatRecipesResponse(recipes)).0, recipes[k].name)
    ensures var cards := ObjectValues(Destructure(FormatRecipesResponse(recipes)).1);
      |cards| == |recipes| && forall k :: 0 <= k < |recipes| ==> cards[k] == RecipeCard(recipes[k])
  {
    forall k | 0 <= k < |recipes|
      ensures Contains(Destructure(FormatRecipesResponse(recipes)).0, recipes[k].name)
    {
      JoinContains(Names(recipes), ", ", k);
    }
  }

  // ---------------------------------------------------------------
  // Cart actions
  // ---------------------------------------------------------------

  /** The titles of the cart lines, `cartItems.map(item => item.title)`. */
  function CartTitles(items: seq<CartLine>): seq<string>
  {
    seq(|items|, i requires 0 <= i < |items| => items[i].Title())
  }

  /** The first cart line whose title equals `name`, ignoring case. */
  function FindByTitle(items: seq<CartLine>, name: string): (r: Option<nat>)
    ensures r.Some? ==> r.value < |items| && Lower(items[r.value].Title()) == Lower(name)
    ensures r.Some? ==> forall j :: 0 <= j < r.value ==> Lower(items[j].Title()) != Lower(name)
    ensures r.None? <==> forall j :: 0 <= j < |items| ==> Lower(items[j].Title()) != Lower(name)
  {
    if items == [] then None
    else if Lower(items[0].Title()) == Lower(name) then Some(0)
    else match FindByTitle(items[1..], name)
      case None =>
        assert forall j :: 1 <= j < |items| ==> items[j] == items[1..][j - 1];
        None
      case Some(k) =>
        assert forall j :: 1 <= j <= k ==> items[j] == items[1..][j - 1];
        Some(k + 1)
  }

  /** The signed change: `+value` for increase and add, `-value` for decrease and subtract. */
  function Delta(d: Direction, value: nat): int
  {
    if d == Increase || d == Add then value else -(value as int)
  }

  /** `updateItemQuantity(itemName, action, value)`: one update on the line found, none otherwise. */
  method UpdateItemQuantity(cart: Cart, itemName: string, d: Direction, value: nat)
    requires cart.Valid()
    modifies cart
    ensures cart.Valid()
    ensures match FindByTitle(old(cart.items), itemName)
      case Some(k) =>
        var line := old(cart.items)[k];
        cart.items == AfterUpdate(old(cart.items), line.Id(), line.quantity + Delta(d, value)) &&
        cart.requests == old(cart.requests) + [CartRequest(line.Id(), AtLeastOne(line.quantity + Delta(d, value)))]
      case None =>
        cart.items == old(cart.items) && cart.requests == old(cart.requests)
  {
    match FindByTitle(cart.items, itemName)
    case Some(k) =>
      var line := cart.items[k];
      cart.UpdateQuantity(line.Id(), line.quantity + Delta(d, value));
    case None =>
  }

  /** One `PUT` with quantity 0 per line, in cart order. */
  function Removals(lines: seq<CartLine>): seq<CartRequest>
  {
    seq(|lines|, i requires 0 <= i < |lines| => CartRequest(lines[i].Id(), 0))
  }

  /** `removeAllFromCart()`: one `removeFromCart` per line of the current cart. */
  method RemoveAllFromCart(cart: Cart)
    requires cart.Valid()
    modifies cart
    ensures cart.Valid()
    ensures cart.items == []
    ensures cart.requests == old(cart.requests) + Removals(old(cart.items))
  {
    var lines := cart.items;
    var i := 0;
    while i < |lines|
      invariant 0 <= i <= |lines|
      invariant cart.Valid()
      invariant cart.items == lines[i..]
      invariant cart.requests == old(cart.requests) + Removals(lines[..i])
    {
      RemoveHead(cart.items);
      cart.RemoveFromCart(lines[i].Id());
      assert lines[i..][1..] == lines[i + 1..];
      assert Removals(lines[..i + 1]) == Removals(lines[..i]) + [CartRequest(lines[i].Id(), 0)];
      i := i + 1;
    }
    assert lines[..i] == lines;
  }

  /** The first catalogue product whose title equals `ingredient`, ignoring case. */
  function FindProduct(catalog: seq<Product>, ingredient: string): Option<Product>
    decreases |catalog|
  {
    if catalog == [] then None
    else if Lower(catalog[0].title) == Lower(ingredient) then Some(catalog[0])
    else FindProduct(catalog[1..], ingredient)
  }

  /**
   * The lookup returns the first catalogue product whose title equals
   * the ingredient, ignoring case, and nothing exactly when there is none.
   */
  lemma {:induction false} FindProductSpec(catalog: seq<Product>, ingredient: string)
    ensures FindProduct(catalog, ingredient).Some? ==>
      exists k :: 0 <= k < |catalog| && catalog[k] == FindProduct(catalog, ingredient).value &&
        Lower(catalog[k].title) == Lower(ingredient) &&
        forall j :: 0 <= j < k ==> Lower(catalog[j].title) != Lower(ingredient)
    ensures FindProduct(catalog, ingredient).None? <==>
      forall k :: 0 <= k < |catalog| ==> Lower(catalog[k].title) != Lower(ingredient)
    decreases |catalog|
  {
    if catalog != [] && Lower(catalog[0].title) != Lower(ingredient) {
      var rest := catalog[1..];
      FindProductSpec(rest, ingredient);
      assert forall k :: 1 <= k < |catalog| ==> catalog[k] == rest[k - 1];
      if FindProduct(rest, ingredient).Some? {
        var k :| 0 <= k < |rest| && rest[k] == FindProduct(rest, ingredient).value &&
          Lower(rest[k].title) == Lower(ingredient) &&
          forall j :: 0 <= j < k ==> Lower(rest[j].title) != Lower(ingredient);
        assert catalog[k + 1] == rest[k];
      }
    }
  }

  /** The products added for a recipe: one per ingredient with a catalogue match, in ingredient order. */
  function MatchedProducts(catalog: seq<Product>, ingredients: seq<string>): seq<Product>
    decreases |ingredients|
  {
    if ingredients == [] then []
    else
      var earlier := MatchedProducts(catalog, ingredients[..|ingredients| - 1]);
      match FindProduct(catalog, ingredients[|ingredients| - 1])
      case Some(p) => earlier + [p]
      case None => earlier
  }

  /** The lines after `addToCart` has been called on each product in turn. */
  function AddAll(items: seq<CartLine>, products: seq<Product>): seq<CartLine>
    decreases |products|
  {
    if products == [] then items
    else AfterAdd(AddAll(items, products[..|products| - 1]), products[|products| - 1])
  }

  /** One `PUT` with quantity 1 per product added. */
  function Additions(products: seq<Product>): seq<CartRequest>
  {
    seq(|products|, i requires 0 <= i < |products| => CartRequest(products[i].id, 1))
  }

  /** The ingredient has a catalogue match. */
  function HasMatch(catalog: seq<Product>): string -> bool
  {
    (ingredient: string) => FindProduct(catalog, ingredient).Some?
  }

  /** Product `k` added is the catalogue match of the `k`-th ingredient that has one. */
  lemma {:induction false} MatchedProductsOrder(catalog: seq<Product>, ingredients: seq<string>)
    ensures var found, ps := Filter(ingredients, HasMatch(catalog)), MatchedProducts(catalog, ingredients);
      |ps| == |found| && forall k :: 0 <= k < |found| ==> FindProduct(catalog, found[k]) == Some(ps[k])
    decreases |ingredients|
  {
    if ingredients != [] {
      var n := |ingredients| - 1;
      var init := ingredients[..n];
      MatchedProductsOrder(catalog, init);
      assert ingredients == init + [ingredients[n]];
      FilterAppend(init, [ingredients[n]], HasMatch(catalog));
      assert [ingredients[n]][1..] == [];
    }
  }

  /**
   * The ingredients that have a catalogue match are exactly the ones
   * that contribute a product, and what they contribute is that match;
   * unmatched ingredients are skipped. Product `k` is the match of the
   * `k`-th matched ingredient, so a product named by two ingredients is
   * added twice.
   */
  lemma {:induction false} MatchedProductsSpec(catalog: seq<Product>, ingredients: seq<string>)
    ensures forall k :: 0 <= k < |ingredients| && FindProduct(catalog, ingredients[k]).Some? ==>
      FindProduct(catalog, ingredients[k]).value in MatchedProducts(catalog, ingredients)
    ensures forall p :: p in MatchedProducts(catalog, ingredients) ==>
      p in catalog && exists k :: 0 <= k < |ingredients| && FindProduct(catalog, ingredients[k]) == Some(p)
    ensures var found, ps := Filter(ingredients, HasMatch(catalog)), MatchedProducts(catalog, ingredients);
      |ps| == |found| && forall k :: 0 <= k < |found| ==> FindProduct(catalog, found[k]) == Some(ps[k])
    decreases |ingredients|
  {
    MatchedProductsOrder(catalog, ingredients);
    if ingredients != [] {
      var n := |ingredients| - 1;
      var init := ingredients[..n];
      MatchedProductsSpec(catalog, init);
      var done := MatchedProducts(catalog, init);
      var all := MatchedProducts(catalog, ingredients);
      assert forall p :: p in done ==> p in all;
      forall k | 0 <= k < |ingredients| && FindProduct(catalog, ingredients[k]).Some?
        ensures FindProduct(catalog, ingredients[k]).value in all
      {
        if k < n {
          assert ingredients[k] == init[k];
        }
      }
      forall p | p in all
        ensures p in catalog && exists k :: 0 <= k < |ingredients| && FindProduct(catalog, ingredients[k]) == Some(p)
      {
        if p in done {
          var k :| 0 <= k < |init| && FindProduct(catalog, init[k]) == Some(p);
          assert ingredients[k] == init[k];
        } else {
          assert FindProduct(catalog, ingredients[n]) == Some(p);
          FindProductSpec(catalog, ingredients[n]);
        }
      }
    }
  }

  /** How many of `products` carry `id`. */
  function CountId(products: seq<Product>, id: int): nat
    decreases |products|
  {
    if products == [] then 0
    else CountId(products[..|products| - 1], id) + (if products[|products| - 1].id == id then 1 else 0)
  }

  /**
   * After adding products, each of them has a line, every line that was
   * there still has one, and no other id appears; the quantity for each
   * id rose by the number of added products with that id; and a valid
   * cart stays valid.
   */
  lemma {:induction false} AddAllSpec(items: seq<CartLine>, products: seq<Product>)
    ensures forall p :: p in products ==> HasId(AddAll(items, products), p.id)
    ensures forall id :: HasId(items, id) ==> HasId(AddAll(items, products), id)
    ensures forall id :: HasId(AddAll(items, products), id) ==>
      HasId(items, id) || exists k :: 0 <= k < |products| && products[k].id == id
    ensures forall id :: QuantityOf(AddAll(items, products), id) == QuantityOf(items, id) + CountId(products, id)
    ensures ValidLines(items) ==> ValidLines(AddAll(items, products))
    decreases |products|
  {
    if products != [] {
      var init, last := products[..|products| - 1], products[|products| - 1];
      AddAllSpec(items, init);
      var before := AddAll(items, init);
      AddKeepsIds(before, last);
      assert products == init + [last];
      forall id ensures QuantityOf(AddAll(items, products), id) == QuantityOf(items, id) + CountId(products, id) {
        AddQuantity(before, last, id);
      }
      forall id | HasId(AddAll(items, products), id)
        ensures HasId(items, id) || exists k :: 0 <= k < |products| && products[k].id == id
      {
        if !HasId(items, id) && id != last.id {
          var k :| 0 <= k < |init| && init[k].id == id;
          assert products[k] == init[k];
        }
      }
      if ValidLines(items) {
        AddKeepsValid(before, last);
      }
    }
  }

  /** `addToCart` keeps every id already present, adds the product's own and no other. */
  lemma AddKeepsIds(items: seq<CartLine>, product: Product)
    ensures HasId(AfterAdd(items, product), product.id)
    ensures forall id :: HasId(items, id) ==> HasId(AfterAdd(items, product), id)
    ensures forall id :: HasId(AfterAdd(items, product), id) ==> HasId(items, id) || id == product.id
  {
    var after := AfterAdd(items, product);
    forall id | HasId(after, id) ensures HasId(items, id) || id == product.id {
      var i :| 0 <= i < |after| && after[i].Id() == id;
      if i < |items| {
        assert items[i].Id() == id;
      }
    }
    if !HasId(items, product.id) {
      assert after[|items|].Id() == product.id;
      forall id | HasId(items, id) ensures HasId(after, id) {
        var i :| 0 <= i < |items| && items[i].Id() == id;
        assert after[i] == items[i];
      }
    } else {
      forall id | HasId(items, id) ensures HasId(after, id) {
        var i :| 0 <= i < |items| && items[i].Id() == id;
        assert after[i].Id() == id;
      }
    }
  }

  /** The lines after adding a catalogue match, if there is one. */
  function AddFound(items: seq<CartLine>, found: Option<Product>): seq<CartLine>
  {
    match found
    case Some(p) => AfterAdd(items, p)
    case None => items
  }

  /** The request sent for a catalogue match, if there is one. */
  function FoundRequests(found: Option<Product>): seq<CartRequest>
  {
    match found
    case Some(p) => [CartRequest(p.id, 1)]
    case None => []
  }

  /** One more ingredient: its match, if any, is added once more and requested once more. */
  lemma MatchedStep(items: seq<CartLine>, catalog: seq<Product>, ingredients: seq<string>, i: nat)
    requires i < |ingredients|
    ensures var done, next := MatchedProducts(catalog, ingredients[..i]), MatchedProducts(catalog, ingredients[..i + 1]);
      var found := FindProduct(catalog, ingredients[i]);
      AddAll(items, next) == AddFound(AddAll(items, done), found) &&
      Additions(next) == Additions(done) + FoundRequests(found)
  {
    assert ingredients[..i + 1][..i] == ingredients[..i];
    var done := MatchedProducts(catalog, ingredients[..i]);
    match FindProduct(catalog, ingredients[i]) {
      case Some(p) =>
        assert (done + [p])[..|done|] == done;
      case None =>
    }
  }

  /** One turn of the `forEach`: `if (product) addToCart(product)` for ingredient `i`. */
  method AddIngredient(cart: Cart, catalog: seq<Product>, ingredients: seq<string>, i: nat,
                       ghost items: seq<CartLine>, ghost requests: seq<CartRequest>)
    requires i < |ingredients| && cart.Valid()
    requires cart.items == AddAll(items, MatchedProducts(catalog, ingredients[..i]))
    requires cart.requests == requests + Additions(MatchedProducts(catalog, ingredients[..i]))
    modifies cart
    ensures cart.Valid()
    ensures cart.items == AddAll(items, MatchedProducts(catalog, ingredients[..i + 1]))
    ensures cart.requests == requests + Additions(MatchedProducts(catalog, ingredients[..i + 1]))
  {
    var found := FindProduct(catalog, ingredients[i]);
    MatchedStep(items, catalog, ingredients, i);
    match found {
      case Some(product) => cart.AddToCart(product);
      case None =>
    }
  }

  /** The `addIngredientsToCart` case: add the catalogue match of every ingredient that has one. */
  method AddIngredientsToCart(cart: Cart, catalog: seq<Product>, recipe: Recipe)
    requires cart.Valid()
    modifies cart
    ensures cart.Valid()
    ensures cart.items == AddAll(old(cart.items), MatchedProducts(catalog, recipe.ingredients))
    ensures cart.requests == old(cart.requests) + Additions(MatchedProducts(catalog, recipe.ingredients))
  {
    ghost var items := cart.items;
    ghost var requests := cart.requests;
    var ingredients := recipe.ingredients;
    var i := 0;
    while i < |ingredients|
      invariant 0 <= i <= |ingredients|
      invariant cart.Valid()
      invariant cart.items == AddAll(items, MatchedProducts(catalog, ingredients[..i]))
      invariant cart.requests == requests + Additions(MatchedProducts(catalog, ingredients[..i]))
    {
      AddIngredient(cart, catalog, ingredients, i, items, requests);
      i := i + 1;
    }
    assert ingredients[..i] == ingredients;
  }

  // ---------------------------------------------------------------
  // The action dispatch of sendMessageToLucy
  // ---------------------------------------------------------------

  /** What the recipe endpoints answer in one exchange, and the bundled product catalogue. */
  datatype Services = Services(
    allRecipes: Call<seq<Recipe>>,   // GET /recipes
    byQuery: Call<seq<Recipe>>,      // GET /recipes/search?q=
    byTag: Call<seq<Recipe>>,        // GET /recipes/tag/
    byMealType: Call<seq<Recipe>>,   // GET /recipes/meal-type/
    catalog: seq<Product>)           // products.json

  /**
   * The `responseMessage` sent to the assistant, by its shape; the
   * fixed wording around the fields is not modelled.
   */
  datatype Instruction =
    | ReportMatchingCart(backendResult: string)
    | ReportClosest(backendResult: string)
    | ReportSearch(category: string, backendResult: string)
    | ConfirmIngredientsAdded(recipeName: string)
    | ConfirmCartCleared
    | ConfirmQuantity(itemName: string, changed: string, value: string)
    | NotUnderstood

  /** What the dispatch produces: the instruction and `responseMessageBackend`, or a thrown fetch. */
  datatype Dispatched = Instructed(instruction: Instruction, payload: Payload) | DispatchThrew

  /** `action.category` spliced into a string; an absent token prints as `undefined`. */
  function CategoryText(c: Option<string>): string
  {
    match c
    case Some(s) => s
    case None => "undefined"
  }

  /** The three searches' union, or a throw if any of them threw. */
  function SearchResult(s: Services): Call<seq<Recipe>>
  {
    if s.byQuery.Threw? || s.byTag.Threw? || s.byMealType.Threw? then Threw
    else Returned(DedupBy(s.byQuery.value + s.byTag.value + s.byMealType.value, RecipeId))
  }

  /** A recipe-returning case: format the recipes found, or propagate a thrown fetch. */
  function Report(found: Call<seq<Recipe>>, make: string -> Instruction): Dispatched
  {
    match found
    case Threw => DispatchThrew
    case Returned(rs) =>
      var (tmp, backend) := Destructure(FormatRecipesResponse(rs));
      Instructed(make(tmp), backend)
  }

  /** The instruction and payload of each case of the `switch (action.type)`. */
  function DispatchResult(action: Action, items: seq<CartLine>, s: Services): Dispatched
  {
    match action
    case GetRecipesMatchingCart =>
      Report(match s.allRecipes case Threw => Threw case Returned(rs) => Returned(MatchingCart(rs, CartTitles(items))),
             tmp => ReportMatchingCart(tmp))
    case GetRecipesWithFewestAdditionalIngredients =>
      Report(match s.allRecipes case Threw => Threw case Returned(rs) => Returned(FewestAdditional(rs, CartTitles(items))),
             tmp => ReportClosest(tmp))
    case SearchRecipes(c) =>
      Report(SearchResult(s), tmp => ReportSearch(CategoryText(c), tmp))
    case AddIngredientsToCart(recipe) => Instructed(ConfirmIngredientsAdded(recipe.name), RecipeList([]))
    case RemoveAllFromCart => Instructed(ConfirmCartCleared, RecipeList([]))
    case UpdateItemQuantity(item, d, v) => Instructed(ConfirmQuantity(item, Verb(d) + "d", NatToString(v)), RecipeList([]))
    case Unknown => Instructed(NotUnderstood, RecipeList([]))
  }

  /** The cart lines after the dispatch of `action`. */
  function CartAfter(action: Action, items: seq<CartLine>, catalog: seq<Product>): seq<CartLine>
  {
    match action
    case AddIngredientsToCart(recipe) => AddAll(items, MatchedProducts(catalog, recipe.ingredients))
    case RemoveAllFromCart => []
    case UpdateItemQuantity(item, d, v) =>
      (match FindByTitle(items, item)
       case Some(k) => AfterUpdate(items, items[k].Id(), items[k].quantity + Delta(d, v))
       case None => items)
    case _ => items
  }

  /** The cart requests the dispatch of `action` sends. */
  function RequestsAfter(action: Action, items: seq<CartLine>, catalog: seq<Product>): seq<CartRequest>
  {
    match action
    case AddIngredientsToCart(recipe) => Additions(MatchedProducts(catalog, recipe.ingredients))
    case RemoveAllFromCart => Removals(items)
    case UpdateItemQuantity(item, d, v) =>
      (match FindByTitle(items, item)
       case Some(k) => [CartRequest(items[k].Id(), AtLeastOne(items[k].quantity + Delta(d, v)))]
       case None => [])
    case _ => []
  }

  /** The `switch (action.type)` of `sendMessageToLucy`. */
  method Dispatch(action: Action, cart: Cart, s: Services) returns (d: Dispatched)
    requires cart.Valid()
    modifies cart
    ensures cart.Valid()
    ensures d == DispatchResult(action, old(cart.items), s)
    ensures cart.items == CartAfter(action, old(cart.items), s.catalog)
    ensures cart.requests == old(cart.requests) + RequestsAfter(action, old(cart.items), s.catalog)
  {
    match action
    case GetRecipesMatchingCart =>
      d := Report(match s.allRecipes case Threw => Threw case Returned(rs) => Returned(MatchingCart(rs, CartTitles(cart.items))),
                  tmp => ReportMatchingCart(tmp));
    case GetRecipesWithFewestAdditionalIngredients =>
      d := Report(match s.allRecipes case Threw => Threw case Returned(rs) => Returned(FewestAdditional(rs, CartTitles(cart.items))),
                  tmp => ReportClosest(tmp));
    case SearchRecipes(c) =>
      if s.byQuery.Threw? || s.byTag.Threw? || s.byMealType.Threw? {
        d := DispatchThrew;
      } else {
        var found := Recipes.SearchRecipes(s.byQuery.value, s.byTag.value, s.byMealType.value);
        d := Report(Returned(found), tmp => ReportSearch(CategoryText(c), tmp));
      }
    case AddIngredientsToCart(recipe) =>
      AddIngredientsToCart(cart, s.catalog, recipe);
      d := Instructed(ConfirmIngredientsAdded(recipe.name), RecipeList([]));
    case RemoveAllFromCart =>
      RemoveAllFromCart(cart);
      d := Instructed(ConfirmCartCleared, RecipeList([]));
    case UpdateItemQuantity(item, dir, v) =>
      UpdateItemQuantity(cart, item, dir, v);
      d := Instructed(ConfirmQuantity(item, Verb(dir) + "d", NatToString(v)), RecipeList([]));
    case Unknown =>
      d := Instructed(NotUnderstood, RecipeList([]));
  }

  // ---------------------------------------------------------------
  // The assistant run and its poll loop
  // ---------------------------------------------------------------

  /** One entry of `messages.list(thread.id).data`, reduced to what the core reads. */
  datatype Message = Message(role: string, runId: string, text: string)

  /** The reply used when the run reports `failed`. */
  const RunFailedReply: string := "Sorry, I encountered an error processing your request."

  function IsAssistant(): Message -> bool
  {
    (m: Message) => m.role == "assistant"
  }

  function OfRun(runId: string): Message -> bool
  {
    (m: Message) => m.runId == runId
  }

  /** Both filters at once: an assistant message of this run. */
  function ReplyOf(runId: string): Message -> bool
  {
    (m: Message) => m.role == "assistant" && m.runId == runId
  }

  /** The last assistant message of this run, or `''` when there is none. */
  function LastReply(messages: seq<Message>, runId: string): string
  {
    var mine := Filter(Filter(messages, IsAssistant()), OfRun(runId));
    if mine == [] then "" else mine[|mine| - 1].text
  }

  /**
   * The reply is the text of the last message that is both from the
   * assistant and of this run; a message of another run, or a later
   * message from the user, is never chosen; with no such message the
   * reply is empty.
   */
  lemma LastReplySpec(messages: seq<Message>, runId: string)
    ensures (forall k :: 0 <= k < |messages| ==> !(messages[k].role == "assistant" && messages[k].runId == runId)) ==>
      LastReply(messages, runId) == ""
    ensures (exists k :: 0 <= k < |messages| && messages[k].role == "assistant" && messages[k].runId == runId) ==>
      exists k :: 0 <= k < |messages| && messages[k].role == "assistant" && messages[k].runId == runId &&
        LastReply(messages, runId) == messages[k].text &&
        forall j :: k < j < |messages| ==> !(messages[j].role == "assistant" && messages[j].runId == runId)
  {
    var both := ReplyOf(runId);
    FilterFilter(messages, IsAssistant(), OfRun(runId), both);
    FilterSpec(messages, both);
    var mine := Filter(messages, both);
    if mine != [] {
      var k := FilterLast(messages, both);
    } else {
      forall k | 0 <= k < |messages| ensures !both(messages[k]) {
        assert messages[k] in messages;
      }
    }
  }

  /** The statuses that keep the `do ... while` loop polling. */
  predicate Pending(status: string)
  {
    status == "queued" || status == "in_progress"
  }

  /** What one exchange with the assistant ends in. */
  datatype RunOutcome = Reply(text: string) | RunThrew | StillRunning

  /** A `runs.retrieve` answer that keeps the loop going. */
  predicate KeepsPolling(poll: Call<string>)
  {
    poll.Returned? && Pending(poll.value)
  }

  /**
   * The loop's exit step on an answer that does not keep it going:
   * `completed` reads the message list, `failed` gives the fixed
   * apology, any other status leaves the reply `''`, and a throw
   * propagates.
   */
  function Settle(poll: Call<string>, listing: Call<seq<Message>>, runId: string): RunOutcome
  {
    match poll
    case Threw => RunThrew
    case Returned(status) =>
      if status == "completed" then
        (match listing case Threw => RunThrew case Returned(ms) => Reply(LastReply(ms, runId)))
      else if status == "failed" then Reply(RunFailedReply)
      else Reply("")
  }

  /** The poll loop over the answers `runs.retrieve` gives, in order. */
  function PollOutcome(polls: seq<Call<string>>, listing: Call<seq<Message>>, runId: string): RunOutcome
    decreases |polls|
  {
    if polls == [] then StillRunning
    else if KeepsPolling(polls[0]) then PollOutcome(polls[1..], listing, runId)
    else Settle(polls[0], listing, runId)
  }

  /**
   * The loop settles on the first answer that is neither `queued` nor
   * `in_progress`; while every answer seen is one of those, it is still
   * running.
   */
  lemma {:induction false} PollOutcomeSpec(polls: seq<Call<string>>, listing: Call<seq<Message>>, runId: string, k: nat)
    requires k <= |polls| && forall i :: 0 <= i < k ==> KeepsPolling(polls[i])
    ensures k == |polls| ==> PollOutcome(polls, listing, runId) == StillRunning
    ensures k < |polls| && !KeepsPolling(polls[k]) ==>
      PollOutcome(polls, listing, runId) == Settle(polls[k], listing, runId)
    decreases k
  {
    if k > 0 {
      assert forall i :: 0 <= i < k - 1 ==> polls[1..][i] == polls[i + 1];
      PollOutcomeSpec(polls[1..], listing, runId, k - 1);
    }
  }

  /**
   * A `completed` run replies with its last assistant message, or throws
   * when listing the messages throws; a `failed` one replies with the
   * fixed apology; any other status that ends the loop leaves the reply
   * `''`; a thrown retrieve propagates.
   */
  lemma CompletedRunReply(listing: seq<Message>, runId: string, status: string)
    ensures Settle(Returned("completed"), Returned(listing), runId) == Reply(LastReply(listing, runId))
    ensures Settle(Returned("completed"), Threw, runId) == RunThrew
    ensures Settle(Returned("failed"), Returned(listing), runId) == Reply(RunFailedReply)
    ensures !Pending(status) && status != "completed" && status != "failed" ==>
      Settle(Returned(status), Returned(listing), runId) == Reply("")
    ensures Settle(Threw, Returned(listing), runId) == RunThrew
  {
  }

  /** The `do { ... } while (runStatus === "queued" || runStatus === "in_progress")` loop. */
  method PollRun(polls: seq<Call<string>>, listing: Call<seq<Message>>, runId: string) returns (outcome: RunOutcome)
    ensures outcome == PollOutcome(polls, listing, runId)
  {
    var lucyResponse := "";
    var i := 0;
    while i < |polls|
      invariant 0 <= i <= |polls|
      invariant PollOutcome(polls[i..], listing, runId) == PollOutcome(polls, listing, runId)
    {
      assert polls[i..][1..] == polls[i + 1..];
      match polls[i]
      case Threw =>
        return RunThrew;
      case Returned(runStatus) =>
        if runStatus == "completed" {
          match listing
          case Threw =>
            return RunThrew;
          case Returned(messages) =>
            lucyResponse := LastReply(messages, runId);
            return Reply(lucyResponse);
        } else if runStatus == "failed" {
          lucyResponse := RunFailedReply;
          return Reply(lucyResponse);
        }
        if !Pending(runStatus) {
          return Reply(lucyResponse);
        }
      i := i + 1;
    }
    return StillRunning;
  }

  // ---------------------------------------------------------------
  // The conversation
  // ---------------------------------------------------------------

  datatype Sender = User | Lucy

  /** One entry of `conversationHistory`; `recipes` is absent on user and error turns. */
  datatype Turn = Turn(sender: Sender, text: string, recipes: Option<seq<Attached>>)

  const Greeting: string := "Hi there! I'm Lucy, your virtual cooking assistant. How can I help you today? :)"

  /** The turn appended by the `catch` block. */
  const ErrorTurn: Turn := Turn(Lucy, "Sorry, something went wrong.", None)

  /** What `messages.create`, `runs.create` (the run id), each `runs.retrieve` and `messages.list` answer. */
  datatype AssistantCalls = AssistantCalls(
    submit: Call<()>,
    run: Call<string>,
    polls: seq<Call<string>>,
    listing: Call<seq<Message>>)

  /**
   * The turn the exchange appends after the user's: the reply with its
   * attachments, the generic apology when anything threw, or nothing
   * while the run has not settled.
   */
  function ReplyTurn(d: Dispatched, calls: AssistantCalls): Option<Turn>
  {
    match d
    case DispatchThrew => Some(ErrorTurn)
    case Instructed(_, payload) =>
      if calls.submit.Threw? || calls.run.Threw? then Some(ErrorTurn)
      else
        match PollOutcome(calls.polls, calls.listing, calls.run.value)
        case Reply(text) => Some(Turn(Lucy, text, Some(ObjectValues(payload))))
        case RunThrew => Some(ErrorTurn)
        case StillRunning => None
  }

  /**
   * A throw at any stage, from the recipe fetch to the message list,
   * appends exactly the one generic-apology turn.
   */
  lemma FailureAppendsApology(d: Dispatched, calls: AssistantCalls)
    requires d.DispatchThrew? || calls.submit.Threw? || calls.run.Threw? ||
      (calls.run.Returned? && PollOutcome(calls.polls, calls.listing, calls.run.value) == RunThrew)
    ensures ReplyTurn(d, calls) == Some(ErrorTurn)
  {
  }

  /** The chat component's state and the cart it drives. */
  class Chat {
    var history: seq<Turn>
    var isSending: bool
    var userInput: string
    /** All recipes, fetched when the component mounts (`matchingRecipes`). */
    var recipes: seq<Recipe>
    /** The assistant client, the assistant and the thread all exist. */
    var connected: bool
    /** The instructions posted to the assistant thread, in order. */
    var submitted: seq<Instruction>
    const cart: Cart

    constructor (cart: Cart, recipes: seq<Recipe>, connected: bool)
      ensures this.cart == cart && this.recipes == recipes && this.connected == connected
      ensures history == [Turn(Lucy, Greeting, None)] && !isSending && userInput == "" && submitted == []
    {
      this.cart := cart;
      this.recipes := recipes;
      this.connected := connected;
      history := [Turn(Lucy, Greeting, None)];
      isSending := false;
      userInput := "";
      submitted := [];
    }

    /** `setUserInput(e.target.value)`. */
    method SetUserInput(text: string)
      modifies this
      ensures userInput == text
      ensures history == old(history) && isSending == old(isSending) && submitted == old(submitted)
      ensures recipes == old(recipes) && connected == old(connected)
    {
      userInput := text;
    }

    /**
     * `sendMessageToLucy()`: ignore a blank input or a missing assistant;
     * otherwise append the user's turn, dispatch the parsed action,
     * post the instruction, create a run, poll it, and append the reply
     * turn (or the apology if anything threw).
     */
    method SendMessageToLucy(s: Services, calls: AssistantCalls)
      requires cart.Valid()
      modifies this, cart
      ensures cart.Valid()
      ensures recipes == old(recipes) && connected == old(connected)
      ensures IsBlank(old(userInput)) || !connected ==>
        history == old(history) && isSending == old(isSending) && userInput == old(userInput) &&
        submitted == old(submitted) && cart.items == old(cart.items) && cart.requests == old(cart.requests)
      ensures !IsBlank(old(userInput)) && connected ==>
        var action := ParseUserInput(old(userInput), recipes);
        var d := DispatchResult(action, old(cart.items), s);
        cart.items == CartAfter(action, old(cart.items), s.catalog) &&
        cart.requests == old(cart.requests) + RequestsAfter(action, old(cart.items), s.catalog) &&
        submitted == old(submitted) + (if d.Instructed? && calls.submit.Returned? then [d.instruction] else []) &&
        match ReplyTurn(d, calls)
        case Some(turn) =>
          history == old(history) + [Turn(User, old(userInput), None), turn] && !isSending && userInput == ""
        case None =>
          history == old(history) + [Turn(User, old(userInput), None)] && isSending && userInput == old(userInput)
    {
      if IsBlank(userInput) || !connected {
        return;
      }
      var input := userInput;
      isSending := true;
      history := history + [Turn(User, input, None)];
      var action := ParseUserInput(input, recipes);
      var d := Dispatch(action, cart, s);
      var reply: Option<Turn>;
      match d {
        case DispatchThrew =>
          reply := Some(ErrorTurn);
        case Instructed(instruction, payload) =>
        if calls.submit.Threw? {
          reply := Some(ErrorTurn);
        } else {
          submitted := submitted + [instruction];
          if calls.run.Threw? {
            reply := Some(ErrorTurn);
          } else {
            var outcome := PollRun(calls.polls, calls.listing, calls.run.value);
            match outcome
            case Reply(text) => reply := Some(Turn(Lucy, text, Some(ObjectValues(payload))));
            case RunThrew => reply := Some(ErrorTurn);
            case StillRunning => reply := None;
          }
        }
      }
      match reply
      case Some(turn) =>
        history := history + [turn];
        isSending := false;
        userInput := "";
      case None =>
    }
  }
}
