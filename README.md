# InnoShop core in Dafny

This project models the logic at the core of the InnoShop grocery shop and proves properties about it. Four parts are modelled:

- **The chat assistant Lucy** (`src/components/LucyChat.jsx`).
  - `parseUserInput` classifies a typed message into an action. It checks substrings and prefixes first, then four `verb the quantity of '<item>' by <n>` templates.
  - The recipe queries all work on the recipe list the backend returns. *Matching cart* keeps the recipes made only of cart items. *Fewest additional* keeps the recipes that miss the fewest ingredients. *Search* takes the union of three result lists, one recipe per id.
  - `formatRecipesResponse` formats the query results.
  - `sendMessageToLucy` dispatches the action. It may change the cart, post an instruction to the assistant thread, and poll the assistant run. Then it appends a reply turn to the conversation.
- **The cart store** (`src/contexts/CartContext.js`). It holds a list of cart lines. Add-to-cart increments a line or appends a new one. Remove-by-id deletes lines. Update-quantity clamps the new quantity to at least 1. Every change sends one `PUT` body to the cart endpoint.
- **The product listing** (`src/pages/HomePage.jsx`). It searches titles case-insensitively. Then it applies a stable sort by price (either direction) or by rating. It shows pages of 20 products, with Previous and Next buttons.
- **The product-list generator** (`src/api/fetchAndParseRecipes.js`). It makes one product per distinct ingredient title, in the order the titles are first met. Ids run from 1.

Modules: `Wrappers` (option and call-outcome types), `Seqs` (`filter`, subsequences, and Map-style de-duplication), `Strings` (the string built-ins the source calls), `Catalog`, `CartContext`, `Recipes`, `Intents` (the classifier), `LucyChat`, `ProductListing` and `ProductGenerator`.

Neither the network nor the assistant appears in the model. Every answer they give is a parameter:

- `Services` holds the recipe endpoints' answers and the bundled catalogue.
- `AssistantCalls` holds what `messages.create`, `runs.create`, each `runs.retrieve` and `messages.list` return.
- Either kind of answer may instead be a thrown error.

The cart keeps a log of the `PUT` bodies it sends (`requests`). This makes "exactly one request per line" and "no request" statable.

Prices are kept in integer cents and ratings are integers. The listing only compares them.

## Model

| member | source | states |
|---|---|---|
| Intents.ParsePriority | src/components/LucyChat.jsx:398-407 | "what can I make" wins over everything, even a leading "search"; then "closest recipes"; then a leading "search" gives a search whose category is the third space-separated token, absent when there is none |
| Intents.AddIngredientsRule | src/components/LucyChat.jsx:408-416 | after the earlier rules, a leading "add ingredients for" gives the add action exactly when the text left after removing "add ingredients for " names a recipe, ignoring case; that recipe is from the list; otherwise the result is the quantity stage's, skipping the remove-all test |
| Intents.RemoveAllRule | src/components/LucyChat.jsx:414-416 | after the earlier rules and without the add prefix, the result is the clear-cart action exactly when "remove all" or "clear all" occurs |
| Intents.ParseFallsToTemplates | src/components/LucyChat.jsx:396-436 | an input that no earlier rule catches is classified by the quantity templates alone |
| Intents.QuantityOrder | src/components/LucyChat.jsx:417-435 | templates are tried in the order increase, decrease, add, subtract: the chosen direction's template matched with that item and amount and every earlier one failed; `unknown` exactly when none matched |
| Intents.QuantityNeverAdds | src/components/LucyChat.jsx:417-435 | the quantity stage yields only a quantity change or `unknown`, so classification is total |
| Intents.MatchTemplateSound | src/components/LucyChat.jsx:417-433 | a template match is the regex's leftmost, greedy read: at the returned index the input reads `<verb> the quantity of '<item>' by <digits>` with a quote-free item, the amount is the value of the digits, the character after them is not a digit, and that shape starts at no earlier index |
| Intents.MatchTemplateComplete | src/components/LucyChat.jsx:417-422 | if the template shape occurs anywhere in the input, the template matches (the regex is unanchored) |
| Intents.TemplateRoundTrip | src/components/LucyChat.jsx:417-424 | a phrase built from a quote-free item and a printed number reads back as that item and number |
| Intents.QuantityPhrase | src/components/LucyChat.jsx:417-435 | the quantity stage reads a typed `<verb> the quantity of '<item>' by <n>` with a quote-free item back as that direction, item and amount, in all four directions (no other template matches the phrase) |
| Intents.PhraseClassifies | src/components/LucyChat.jsx:396-436 | a typed quantity phrase with a quote-free item, in which none of "what can I make", "closest recipes", "remove all" and "clear all" occurs, is classified as that quantity change |
| Intents.FindRecipe | src/components/LucyChat.jsx:410 | returns a listed recipe whose name equals the text ignoring case, the first such; none exactly when no name matches |
| Recipes.MatchingCartSpec | src/components/LucyChat.jsx:28-30 | the exact-match result is exactly the recipes all of whose ingredients are cart titles, each as often as it is listed, in original order |
| Recipes.MinMissing | src/components/LucyChat.jsx:50 | the minimum missing count is attained by some recipe and no recipe has fewer; absent (`Infinity`) exactly on an empty list |
| Recipes.AchievesMinIff | src/components/LucyChat.jsx:45-51 | a recipe passes the filter exactly when its missing count is the least |
| Recipes.FewestAdditionalSpec | src/components/LucyChat.jsx:45-56 | the fewest-additional result holds every recipe with the least missing count, each as often as it is listed, and no other, in input order |
| Recipes.FewestAdditionalEmpty | src/components/LucyChat.jsx:45-56 | the fewest-additional result is empty exactly when there are no recipes |
| Recipes.FewestAdditionalExample | src/components/LucyChat.jsx:45-56 | with cart {A, B} and recipes {A,B,C}, {A,B}, {A,D,E}, only {A,B} is returned |
| Recipes.StoreRecipe | src/components/LucyChat.jsx:69-71 | storing one recipe keeps the map equal to the first-seen de-duplication of everything inserted, with the new recipe appended exactly when its id is new |
| Recipes.AddToUniqueRecipes | src/components/LucyChat.jsx:67-73 | inserting a batch into the id-keyed map keeps its values equal to the first-seen de-duplication of everything inserted so far, and its keys equal to their ids |
| Recipes.SearchRecipes | src/components/LucyChat.jsx:64-88 | the search union has no duplicate ids and covers every id of the three lists (search, tag, meal type); each recipe kept is the first in the concatenation with its id, and the result lists them in strictly increasing order of that first position |
| Recipes.SearchKeepsFirstSeen | src/components/LucyChat.jsx:69-70 | the recipe kept for an id is the first one met with that id |
| LucyChat.FormatEmpty | src/components/LucyChat.jsx:443-446 | with no recipes, the backend result sent to the assistant is "N" and the reply turn's attachment list is the single character 'o' |
| LucyChat.FormatFound | src/components/LucyChat.jsx:447-449 | with recipes, the backend result contains every recipe name and the attachments are one card per recipe, in order |
| LucyChat.FindByTitle | src/components/LucyChat.jsx:148 | finds the first cart line whose title equals the name ignoring case; none exactly when no title matches |
| LucyChat.UpdateItemQuantity | src/components/LucyChat.jsx:147-155 | a found line gets exactly one update, to quantity + value (increase/add) or quantity − value (decrease/subtract), with one request; an unknown name changes nothing and sends nothing |
| LucyChat.RemoveAllFromCart | src/components/LucyChat.jsx:135-139 | the cart ends empty after exactly one remove request per line, in cart order |
| LucyChat.FindProductSpec | src/components/LucyChat.jsx:235 | the lookup returns the first catalogue product whose title equals the ingredient ignoring case; none exactly when no title matches |
| LucyChat.MatchedProductsSpec | src/components/LucyChat.jsx:234-239 | every ingredient with a catalogue match contributes that match, only catalogue matches of the ingredients are added, and product k is the match of the k-th matched ingredient, so one product named by two ingredients is added twice |
| LucyChat.MatchedProductsOrder | src/components/LucyChat.jsx:234-238 | the added products are, in order and one for one, the catalogue matches of the ingredients that have one |
| LucyChat.AddAllSpec | src/components/LucyChat.jsx:234-239 | after the additions every added product has a cart line, every earlier line's id is still present and no other id appears; each id's quantity rose by the number of added products with that id; a valid cart stays valid |
| LucyChat.AddKeepsIds | src/contexts/CartContext.js:28-36 | one add keeps every id present, adds the product's own and no other |
| LucyChat.AddIngredient | src/components/LucyChat.jsx:235-238 | one ingredient's turn adds its catalogue match if there is one, extending the cart and the requests to those of the next ingredient prefix |
| LucyChat.AddIngredientsToCart | src/components/LucyChat.jsx:233-241 | the cart becomes the lines after adding each matched product in turn, with one add request per product |
| LucyChat.Dispatch | src/components/LucyChat.jsx:217-252 | each action gives its instruction and attachments (or a thrown fetch), with the cart changes and requests of that action only |
| LucyChat.LastReplySpec | src/components/LucyChat.jsx:281-296 | the reply of a completed run is the text of the last message both from the assistant and of this run, or empty when there is none |
| LucyChat.PollOutcomeSpec | src/components/LucyChat.jsx:276-302 | polling settles on the first status that is neither queued nor in progress and is still running while every status is one of those |
| LucyChat.CompletedRunReply | src/components/LucyChat.jsx:265-302 | `completed` replies with the run's last assistant message, or throws when listing the messages throws; `failed` replies with the fixed apology; any other status that ends the loop leaves the reply `''`; a thrown retrieve propagates |
| LucyChat.PollRun | src/components/LucyChat.jsx:276-302 | the do-while loop produces exactly the outcome of the poll specification |
| LucyChat.FailureAppendsApology | src/components/LucyChat.jsx:313-315 | a throw at any stage appends the single turn "Sorry, something went wrong." |
| LucyChat.Chat.constructor | src/components/LucyChat.jsx:95-97 | the conversation starts with Lucy's greeting, not sending, with empty input |
| LucyChat.Chat.SetUserInput | src/components/LucyChat.jsx:193-194 | typing replaces the input and nothing else |
| LucyChat.Chat.SendMessageToLucy | src/components/LucyChat.jsx:203-320 | blank input or a missing assistant changes nothing; otherwise the user turn is appended, the parsed action is dispatched, its instruction is posted, and the reply or apology turn is appended, after which input is cleared and sending ends |
| CartContext.AddExisting | src/contexts/CartContext.js:29-34 | adding a product already present bumps its line by 1; length and every other line unchanged |
| CartContext.AddNew | src/contexts/CartContext.js:35 | adding a new product appends one line with quantity 1 after the unchanged lines |
| CartContext.RemoveSpec | src/contexts/CartContext.js:53 | removing keeps exactly the lines with another id, each as often as it occurs, in order; idempotent; no change on an absent id |
| CartContext.RemoveHead | src/contexts/CartContext.js:53 | in a valid cart, removing the first line's id removes exactly that line |
| CartContext.AddQuantity | src/contexts/CartContext.js:28-36 | adding a product raises the quantity held for its id by exactly 1 and leaves every other id's quantity unchanged |
| CartContext.UpdateSpec | src/contexts/CartContext.js:70-74 | the matching line's quantity becomes max(quantity, 1), everything else unchanged; no change on an absent id |
| CartContext.AddKeepsValid | src/contexts/CartContext.js:28-36 | adding keeps every quantity at least 1 and ids unique |
| CartContext.RemoveKeepsValid | src/contexts/CartContext.js:53 | removing keeps every quantity at least 1 and ids unique |
| CartContext.UpdateKeepsValid | src/contexts/CartContext.js:70-74 | updating keeps every quantity at least 1 and ids unique |
| CartContext.Cart.constructor | src/contexts/CartContext.js:10 | the cart starts empty |
| CartContext.Cart.AddToCart | src/contexts/CartContext.js:26-46 | the store invariant holds, lines become the add transition, one request with quantity 1 |
| CartContext.Cart.RemoveFromCart | src/contexts/CartContext.js:51-63 | the store invariant holds, lines become the remove transition, one request with quantity 0 |
| CartContext.Cart.UpdateQuantity | src/contexts/CartContext.js:68-84 | the store invariant holds, lines become the update transition, one request with max(quantity, 1) |
| ProductListing.FilterByQuerySpec | src/pages/HomePage.jsx:52-54 | the search keeps exactly the products whose lower-cased title contains the lower-cased query, each as often as it is listed, in catalogue order |
| ProductListing.EmptyQueryKeepsAll | src/pages/HomePage.jsx:52-54 | the empty query keeps every product |
| ProductListing.StableSortSorted | src/pages/HomePage.jsx:56-63 | the sort is ordered by the selected key |
| ProductListing.StableSortMultiset | src/pages/HomePage.jsx:56-63 | the sort is a permutation of its input |
| ProductListing.StableSortStable | src/pages/HomePage.jsx:56-63 | the sort keeps the input order among products of equal key |
| ProductListing.StableSortSpec | src/pages/HomePage.jsx:56-63 | the sort is ordered by the selected key, is a permutation, and keeps the input order among equal keys |
| ProductListing.SortProducts | src/pages/HomePage.jsx:56-63 | sorting the copied array in place leaves exactly the stable sort of its contents |
| ProductListing.DisplayedAtMostOnePage | src/pages/HomePage.jsx:65-67 | at most 20 products are shown, on any page number |
| ProductListing.DisplayedPage | src/pages/HomePage.jsx:65-67 | page p ≥ 1 shows positions (p−1)·20 up to p·20 of the sorted list, as many as exist |
| ProductListing.DisplayedMatches | src/pages/HomePage.jsx:52-67 | every shown product matches the search and the shown products are a sub-multiset of the search results |
| ProductListing.DisplayedOrder | src/pages/HomePage.jsx:57-63 | `priceLowToHigh` shows nondecreasing prices, `priceHighToLow` nonincreasing prices, `rating` nonincreasing ratings, any other value the search order |
| ProductListing.NextPageIff | src/pages/HomePage.jsx:134 | without a search and on a page from 1, the products outnumber the pages so far exactly when the next page is not empty |
| ProductListing.PreviousPageFull | src/pages/HomePage.jsx:133 | a page after the first that shows something follows a page of exactly 20 |
| ProductListing.HomePage.constructor | src/pages/HomePage.jsx:15-20 | the page starts with no products, nothing shown, no sort, no search, on page 1, with the shown page agreeing with the state |
| ProductListing.HomePage.ShowPrevious | src/pages/HomePage.jsx:133 | while the shown page agrees with the state and is not empty, a rendered Previous button leads to a full page |
| ProductListing.HomePage.ShowNext | src/pages/HomePage.jsx:134 | with no search and a page from 1, Next is rendered exactly when the next page is not empty |
| ProductListing.HomePage.UpdateDisplayedItems | src/pages/HomePage.jsx:51-70 | the shown page is the listing function of the items, page and query under the `sortBy` state; the `sort` argument has no effect |
| ProductListing.HomePage.LoadProducts | src/pages/HomePage.jsx:24-42 | the fetched products are stored and the shown page agrees with the state |
| ProductListing.HomePage.SetSearchQuery | src/pages/HomePage.jsx:40-42 | the query changes, the page number stays, and the shown page agrees with the state |
| ProductListing.HomePage.SetSortBy | src/pages/HomePage.jsx:40-42 | the order changes, the page number stays, and the shown page agrees with the state |
| ProductListing.HomePage.NextPage | src/pages/HomePage.jsx:82-84 | the page number rises by exactly 1 and the shown page agrees with the state; pressed while Next shows with no search on a page from 1, the new page is not empty |
| ProductListing.HomePage.PrevPage | src/pages/HomePage.jsx:87-89 | the page number falls by exactly 1 and the shown page agrees with the state; pressed while Previous shows, the page is still numbered from 1, and from a non-empty page it shows a full 20 |
| ProductGenerator.AddIngredients | src/api/fetchAndParseRecipes.js:28-47 | the inner loop extends the products to the numbered first-seen titles of everything read so far, with the counter one past the last id |
| ProductGenerator.ParseIngredientsAndCreateProductList | src/api/fetchAndParseRecipes.js:24-50 | the result is the first-seen distinct ingredient titles, numbered from 1, each with the fixed fields |
| ProductGenerator.TitlesDistinct | src/api/fetchAndParseRecipes.js:29-30 | product titles are pairwise distinct |
| ProductGenerator.EveryIngredientHasProduct | src/api/fetchAndParseRecipes.js:27-46 | every ingredient of every recipe is the title of some product |
| ProductGenerator.ProductsInOrder | src/api/fetchAndParseRecipes.js:26-45 | one product per distinct title, each title an ingredient, listed in strictly increasing order of where the title first occurs among the flattened ingredients; ids are 1..n in list order; the description is "Product information for " + title, the brand 'Generic' and the category 'groceries' |
| ProductGenerator.FirstOccurrenceKept | src/api/fetchAndParseRecipes.js:29-30 | for any two first occurrences of titles among the flattened ingredients, both titles have products and the earlier one's product comes first |
| Seqs.DedupByFirstOccurrences | src/api/fetchAndParseRecipes.js:29-30 | the de-duplication consists of first occurrences: each kept element is the first element of the input with its key, and the kept elements appear in strictly increasing order of those first positions |
| ProductGenerator.NoRecipesNoProducts | src/api/fetchAndParseRecipes.js:25-49 | no recipes give no products |

## Left out

- Network and file I/O are not modelled. This covers `fetch`/`axios`, the OpenAI client, creating the assistant and the thread, `addProduct`, and `fs.writeFileSync`/`main`. Their answers are parameters, and the cart's `PUT` calls are a log of request bodies.
- Concurrency and React batching are not modelled. One exchange runs from start to end with no other event in between, and each state setter takes effect at once.
- The poll loop runs over a given finite sequence of `runs.retrieve` answers. If those answers run out while the run is still pending, the exchange has not finished. The user turn is then in the history, sending is still on, and the input is not yet cleared. The source would go on polling.
- The assistant's wording is not modelled. This covers the text of the instructions sent to it, the assistant's setup prompt, and its replies. `Instruction` keeps only the instruction kind and the values spliced into it.
- Lowercasing is ASCII only. The `trim` whitespace test covers ASCII whitespace only. JavaScript's full Unicode case mapping and whitespace set are not modelled.
- `parseInt(value, 10)` is modelled as the exact natural number. It loses no digits, whereas JavaScript loses precision above 2^53.
- `Math.random` values are not modelled. These are the generator's price, discount, rating, stock and image fields, and the recommended-items shuffle on the home page. The shuffle sorts the fetched array in place, so it also reorders the stored products. `LoadProducts` takes the array after the shuffle as its input.
- Float prices are integer cents. The cart totals on the checkout pages are outside the modelled core.
- Console output is not modelled: the `console.error` for a cart item that is not found and the `console.log` calls of the chat exchange. Nothing else depends on them.
- The UI wiring is not modelled: `handleUserInput`'s Enter key, the chat and modal toggles, the recipe modal, and rendering. The `isSending` flag only disables the input controls, and `sendMessageToLucy` does not check it.
- LucyChat.Dispatch: the recipe-search case throws if any of its three fetches throws. The model does not keep the partial map built before the throw, because it is discarded.
- Intents.ParseUserInput: the unknown action carries no text (the code returns `{type: 'unknown'}` only), and quantity changes carry the direction as a variant rather than the string.
- CartContext.Cart: cart lines keep the product's id, title, price and rating. The other product fields spread into a line are not modelled.
