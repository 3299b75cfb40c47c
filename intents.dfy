/**
 * `parseUserInput` of `src/components/LucyChat.jsx`: a total,
 * first-match-wins classifier from the chat text to an action. It tests
 * substrings and prefixes in a fixed order and ends with four
 * regular-expression templates for quantity changes.
 */
module Intents {
  import opened Wrappers
  import opened Strings
  import opened Recipes

  /** The `action` word of a quantity change. */
  datatype Direction = Increase | Decrease | Add | Subtract

  /** The `{ type, ... }` objects `parseUserInput` returns. */
  datatype Action =
    | GetRecipesMatchingCart
    | GetRecipesWithFewestAdditionalIngredients
    | SearchRecipes(category: Option<string>)
    | AddIngredientsToCart(recipe: Recipe)
    | RemoveAllFromCart
    | UpdateItemQuantity(itemName: string, direction: Direction, value: nat)
    | Unknown

  function Verb(d: Direction): string
  {
    match d
    case Increase => "increase"
    case Decrease => "decrease"
    case Add => "add"
    case Subtract => "subtract"
  }

  /** The template's literal text before the captured item name, up to the opening quote. */
  function Opening(d: Direction): string
  {
    Verb(d) + " the quantity of '"
  }

  /** The template's literal text between the item name and the amount. */
  const Closing: string := "' by "

  /**
   * The rest of a match once the opening literal has been read: the item
   * is everything up to the next quote (`[^']*` cannot pass one), then
   * `' by ` must follow, then the amount is the longest run of digits
   * (at least one).
   */
  function ItemAndAmount(rest: string): Option<(string, nat)>
  {
    match IndexOf(rest, "'")
    case None => None
    case Some(q) =>
      if !StartsWith(rest[q..], Closing) then None
      else
        var ds := LeadingDigits(rest[q + |Closing|..]);
        if ds == [] then None else Some((rest[..q], ParseDigits(ds)))
  }

  /**
   * A match of `/<verb> the quantity of '([^']*)' by (\d+)/` that begins
   * at the first character of `s`.
   */
  function MatchAt(s: string, d: Direction): Option<(string, nat)>
  {
    if StartsWith(s, Opening(d)) then ItemAndAmount(s[|Opening(d)|..]) else None
  }

  /** `input.match(pattern)` for the unanchored template: the leftmost match. */
  function MatchTemplate(s: string, d: Direction): Option<(string, nat)>
    decreases |s|
  {
    match MatchAt(s, d)
    case Some(m) => Some(m)
    case None => if s == [] then None else MatchTemplate(s[1..], d)
  }

  /** The text a user types for a quantity change of `amount`. */
  function Phrase(d: Direction, item: string, amount: nat): string
  {
    Opening(d) + item + Closing + NatToString(amount)
  }

  /** A digit string that a greedy `\d+` consumes whole. */
  lemma LeadingDigitsAll(ds: string)
    requires AllDigits(ds)
    ensures LeadingDigits(ds) == ds
  {
  }

  /** Quoted-item position: the first quote of `item + Closing + tail` is right after `item`. */
  lemma FirstQuoteAfter(item: string, tail: string)
    requires '\'' !in item
    ensures IndexOf(item + Closing + tail, "'") == Some(|item|)
  {
    var rest := item + Closing + tail;
    assert rest[|item|..][..1] == "'";
    ContainsAt(rest, |item|, "'");
    forall j | 0 <= j < |item| ensures rest[j..][..1] != "'" {
      assert rest[j..][..1] == [item[j]];
    }
  }

  /** ItemAndAmount reads back a quote-free item and a printed amount. */
  lemma ItemAndAmountRoundTrip(item: string, amount: nat)
    requires '\'' !in item
    ensures ItemAndAmount(item + Closing + NatToString(amount)) == Some((item, amount))
  {
    var digits := NatToString(amount);
    var rest := item + Closing + digits;
    FirstQuoteAfter(item, digits);
    assert rest[|item|..] == Closing + digits;
    assert rest[|item| + |Closing|..] == digits;
    assert rest[..|item|] == item;
    LeadingDigitsAll(digits);
    ParseNatToString(amount);
  }

  /** The template reads back the item and the amount of the phrase it describes. */
  lemma TemplateRoundTrip(d: Direction, item: string, amount: nat)
    requires '\'' !in item
    ensures MatchTemplate(Phrase(d, item, amount), d) == Some((item, amount))
  {
    var o := Opening(d);
    var rest := item + Closing + NatToString(amount);
    var s := Phrase(d, item, amount);
    assert s == o + rest;
    assert s[..|o|] == o && s[|o|..] == rest;
    ItemAndAmountRoundTrip(item, amount);
  }

  /** What ItemAndAmount reads is a quote-free item, `' by ` and a digit string. */
  lemma ItemAndAmountShape(rest: string, item: string, amount: nat) returns (ds: string)
    requires ItemAndAmount(rest) == Some((item, amount))
    ensures '\'' !in item
    ensures ds != [] && AllDigits(ds) && ParseDigits(ds) == amount
    ensures StartsWith(rest, item + Closing + ds)
    ensures |item| + |Closing| + |ds| < |rest| ==> !IsDigit(rest[|item| + |Closing| + |ds|])
  {
    var q := IndexOf(rest, "'").value;
    ds := LeadingDigits(rest[q + |Closing|..]);
    QuoteFreeBefore(rest, q);
    QuotedShape(rest, q, ds);
  }

  /** Everything before the first quote is quote-free. */
  lemma QuoteFreeBefore(rest: string, q: nat)
    requires IndexOf(rest, "'") == Some(q)
    ensures '\'' !in rest[..q]
  {
    var item := rest[..q];
    forall j | 0 <= j < q ensures item[j] != '\'' {
      assert !StartsWith(rest[j..], "'");
      assert rest[j..][..1] == [rest[j]];
    }
  }

  /** The text read when `' by ` follows position `q` and then the digit run `ds`. */
  lemma QuotedShape(rest: string, q: nat, ds: string)
    requires q <= |rest| && StartsWith(rest[q..], Closing)
    requires ds == LeadingDigits(rest[q + |Closing|..])
    ensures StartsWith(rest, rest[..q] + Closing + ds)
    ensures q + |Closing| + |ds| < |rest| ==> !IsDigit(rest[q + |Closing| + |ds|])
  {
    var n := q + |Closing|;
    var tail := rest[n..];
    assert |ds| < |tail| ==> tail[|ds|] == rest[n + |ds|];
    assert rest[q..n] == rest[q..][..|Closing|] == Closing;
    assert rest[n..n + |ds|] == tail[..|ds|] == ds;
    assert rest[..n + |ds|] == rest[..q] + rest[q..n] + rest[n..n + |ds|];
  }

  /** A quote-free item, `' by ` and at least one digit are read by ItemAndAmount. */
  lemma ItemAndAmountOnShape(rest: string, item: string, ds: string)
    requires '\'' !in item && ds != [] && AllDigits(ds)
    requires StartsWith(rest, item + Closing + ds)
    ensures ItemAndAmount(rest).Some?
  {
    assert rest[..|item| + |Closing| + |ds|] == item + Closing + ds;
    var tail := rest[|item| + |Closing|..];
    assert rest == item + Closing + tail;
    FirstQuoteAfter(item, tail);
    assert rest[|item|..][..|Closing|] == Closing;
    var n := |item| + |Closing|;
    assert (item + Closing + ds)[n] == ds[0];
    assert rest[..n + |ds|][n] == rest[n];
    assert tail[0] == ds[0];
  }

  /** The shape read after any opening literal `o`. */
  lemma PrefixedShape(s: string, o: string, item: string, amount: nat) returns (ds: string)
    requires StartsWith(s, o) && ItemAndAmount(s[|o|..]) == Some((item, amount))
    ensures '\'' !in item
    ensures ds != [] && AllDigits(ds) && ParseDigits(ds) == amount
    ensures StartsWith(s, o + item + Closing + ds)
    ensures |o| + |item| + |Closing| + |ds| < |s| ==> !IsDigit(s[|o| + |item| + |Closing| + |ds|])
  {
    var rest := s[|o|..];
    ds := ItemAndAmountShape(rest, item, amount);
    StartsWithConcat(s, o, item + Closing + ds);
    assert o + item + Closing + ds == o + (item + Closing + ds);
    assert |o| + |item| + |Closing| + |ds| < |s| ==>
      rest[|item| + |Closing| + |ds|] == s[|o| + |item| + |Closing| + |ds|];
  }

  /** An anchored match is an occurrence of the template at the start of `s`. */
  lemma MatchAtShape(s: string, d: Direction, item: string, amount: nat) returns (ds: string)
    requires MatchAt(s, d) == Some((item, amount))
    ensures '\'' !in item
    ensures ds != [] && AllDigits(ds) && ParseDigits(ds) == amount
    ensures StartsWith(s, Opening(d) + item + Closing + ds)
    ensures |Opening(d)| + |item| + |Closing| + |ds| < |s| ==> !IsDigit(s[|Opening(d)| + |item| + |Closing| + |ds|])
  {
    ds := PrefixedShape(s, Opening(d), item, amount);
  }

  /** An occurrence of the template's shape at the start of `s` is an anchored match. */
  lemma MatchAtOnShape(s: string, d: Direction, item: string, ds: string)
    requires '\'' !in item && ds != [] && AllDigits(ds)
    requires StartsWith(s, Opening(d) + item + Closing + ds)
    ensures MatchAt(s, d).Some?
  {
    var o := Opening(d);
    var p := item + Closing + ds;
    assert o + item + Closing + ds == o + p;
    assert s[..|o| + |p|] == o + p;
    assert s[..|o|] == s[..|o| + |p|][..|o|];
    assert s[|o|..][..|p|] == s[..|o| + |p|][|o|..];
    assert s[|o|..][..|p|] == p;
    ItemAndAmountOnShape(s[|o|..], item, ds);
  }

  /**
   * An occurrence of the template's shape at position `j` of `s`: the
   * opening literal, a quote-free item, `' by ` and a non-empty digit string.
   */
  predicate OccursAt(s: string, j: int, d: Direction, item: string, ds: string)
  {
    0 <= j <= |s| && '\'' !in item && ds != [] && AllDigits(ds) &&
    StartsWith(s[j..], Opening(d) + item + Closing + ds)
  }

  /** No anchored match means no occurrence of the template's shape at the start of `s`. */
  lemma MatchAtNone(s: string, d: Direction)
    requires MatchAt(s, d).None?
    ensures forall item, ds :: !OccursAt(s, 0, d, item, ds)
  {
    forall item, ds ensures !OccursAt(s, 0, d, item, ds) {
      if OccursAt(s, 0, d, item, ds) {
        assert s[0..] == s;
        MatchAtOnShape(s, d, item, ds);
      }
    }
  }

  /** An occurrence at `j` in `s[1..]` is one at `j + 1` in `s`, and back. */
  lemma OccursShift(s: string, j: int, d: Direction, item: string, ds: string)
    requires s != [] && 0 <= j
    ensures OccursAt(s[1..], j, d, item, ds) <==> OccursAt(s, j + 1, d, item, ds)
  {
    if j + 1 <= |s| {
      assert s[1..][j..] == s[j + 1..];
    }
  }

  /**
   * The template reads `item` and the digits `ds` at position `i` of `s`:
   * the shape occurs there and the digit run is not followed by another
   * digit, as the greedy `\d+` demands.
   */
  predicate ReadAt(s: string, i: int, d: Direction, item: string, ds: string)
  {
    OccursAt(s, i, d, item, ds) &&
    (i + |Opening(d)| + |item| + |Closing| + |ds| < |s| ==>
      !IsDigit(s[i + |Opening(d)| + |item| + |Closing| + |ds|]))
  }

  /** No position of `s` before `i` starts an occurrence of the template's shape. */
  ghost predicate NoneBefore(s: string, i: int, d: Direction)
  {
    forall j, item, ds :: 0 <= j < i ==> !OccursAt(s, j, d, item, ds)
  }

  /**
   * Whatever the template returns is read from the leftmost occurrence
   * of the template in the input, at position `i`: the item is quote
   * free, the amount is the value of the whole digit run there (`\d+` is
   * greedy), and no earlier position starts an occurrence.
   */
  lemma {:induction false} MatchTemplateSound(s: string, d: Direction, item: string, amount: nat)
    returns (i: nat, ds: string)
    requires MatchTemplate(s, d) == Some((item, amount))
    ensures ReadAt(s, i, d, item, ds) && ParseDigits(ds) == amount
    ensures NoneBefore(s, i, d)
    decreases |s|
  {
    if MatchAt(s, d).Some? {
      i, ds := MatchHere(s, d, item, amount);
    } else {
      var i';
      i', ds := MatchTemplateSound(s[1..], d, item, amount);
      i := StepBack(s, d, item, ds, i');
    }
  }

  /** An anchored match is read at position 0, with nothing before it. */
  lemma MatchHere(s: string, d: Direction, item: string, amount: nat) returns (i: nat, ds: string)
    requires MatchAt(s, d) == Some((item, amount))
    ensures ReadAt(s, i, d, item, ds) && ParseDigits(ds) == amount
    ensures NoneBefore(s, i, d)
  {
    i := 0;
    ds := MatchAtShape(s, d, item, amount);
    assert s[0..] == s;
  }

  /**
   * A read at `i'` in `s[1..]` with nothing before it, and no match at
   * the start of `s`: a read at `i' + 1` in `s` with nothing before it.
   */
  lemma StepBack(s: string, d: Direction, item: string, ds: string, i': nat) returns (i: nat)
    requires s != [] && MatchAt(s, d).None?
    requires ReadAt(s[1..], i', d, item, ds) && NoneBefore(s[1..], i', d)
    ensures i == i' + 1
    ensures ReadAt(s, i, d, item, ds) && NoneBefore(s, i, d)
  {
    i := i' + 1;
    OccursShift(s, i', d, item, ds);
    MatchAtNone(s, d);
    forall j, item', ds' | 0 < j < i ensures !OccursAt(s, j, d, item', ds') {
      OccursShift(s, j - 1, d, item', ds');
    }
  }

  /** An occurrence of the template's shape anywhere in the input makes it match. */
  lemma {:induction false} MatchTemplateComplete(s: string, d: Direction, item: string, ds: string, i: nat)
    requires '\'' !in item && ds != [] && AllDigits(ds)
    requires i <= |s| && StartsWith(s[i..], Opening(d) + item + Closing + ds)
    ensures MatchTemplate(s, d).Some?
    decreases i
  {
    if i == 0 {
      MatchAtOnShape(s, d, item, ds);
    } else if MatchAt(s, d).None? {
      assert s[1..][i - 1..] == s[i..];
      MatchTemplateComplete(s[1..], d, item, ds, i - 1);
    }
  }

  /** The first recipe whose name equals `name`, ignoring case (`recipes.find`). */
  function FindRecipe(recipes: seq<Recipe>, name: string): (r: Option<Recipe>)
    ensures r.Some? ==> r.value in recipes && Lower(r.value.name) == Lower(name)
    ensures r.Some? ==>
      exists k :: 0 <= k < |recipes| && recipes[k] == r.value &&
        forall j :: 0 <= j < k ==> Lower(recipes[j].name) != Lower(name)
    ensures r.None? <==> forall k :: 0 <= k < |recipes| ==> Lower(recipes[k].name) != Lower(name)
  {
    if recipes == [] then None
    else if Lower(recipes[0].name) == Lower(name) then Some(recipes[0])
    else
      assert forall k :: 1 <= k < |recipes| ==> recipes[k] == recipes[1..][k - 1];
      FindRecipe(recipes[1..], name)
  }

  /** The four quantity templates, tried in the order increase, decrease, add, subtract. */
  function QuantityChange(input: string): Action
  {
    match MatchTemplate(input, Increase)
    case Some((item, n)) => UpdateItemQuantity(item, Increase, n)
    case None =>
      match MatchTemplate(input, Decrease)
      case Some((item, n)) => UpdateItemQuantity(item, Decrease, n)
      case None =>
        match MatchTemplate(input, Add)
        case Some((item, n)) => UpdateItemQuantity(item, Add, n)
        case None =>
          match MatchTemplate(input, Subtract)
          case Some((item, n)) => UpdateItemQuantity(item, Subtract, n)
          case None => Unknown
  }

  const AddPrefix: string := "add ingredients for"

  /** `parseUserInput(input, recipes)`. */
  function ParseUserInput(input: string, recipes: seq<Recipe>): Action
  {
    if Contains(input, "what can I make") then GetRecipesMatchingCart
    else if Contains(input, "closest recipes") then GetRecipesWithFewestAdditionalIngredients
    else if StartsWith(input, "search") then SearchRecipes(Element(Split(input, ' '), 2))
    else if StartsWith(input, AddPrefix) then
      match FindRecipe(recipes, RemoveFirst(input, AddPrefix + " "))
      case Some(recipe) => AddIngredientsToCart(recipe)
      case None => QuantityChange(input)
    else if Contains(input, "remove all") || Contains(input, "clear all") then RemoveAllFromCart
    else QuantityChange(input)
  }

  /** None of the rules before "add ingredients for" applies. */
  predicate PassesEarlyRules(input: string)
  {
    !Contains(input, "what can I make") && !Contains(input, "closest recipes") && !StartsWith(input, "search")
  }

  /**
   * The fixed priority order: "what can I make" wins over everything,
   * even a leading "search"; then "closest recipes"; then a leading
   * "search", whose category is the third space-separated token.
   */
  lemma ParsePriority(input: string, recipes: seq<Recipe>)
    ensures Contains(input, "what can I make") ==> ParseUserInput(input, recipes) == GetRecipesMatchingCart
    ensures !Contains(input, "what can I make") && Contains(input, "closest recipes") ==>
      ParseUserInput(input, recipes) == GetRecipesWithFewestAdditionalIngredients
    ensures !Contains(input, "what can I make") && !Contains(input, "closest recipes") && StartsWith(input, "search") ==>
      ParseUserInput(input, recipes) == SearchRecipes(Element(Split(input, ' '), 2))
  {
  }

  /**
   * "add ingredients for" yields the add action exactly when the rest of
   * the text names a known recipe, ignoring case; otherwise the "remove
   * all"/"clear all" test is skipped and only the quantity templates are
   * tried.
   */
  lemma AddIngredientsRule(input: string, recipes: seq<Recipe>)
    requires PassesEarlyRules(input) && StartsWith(input, AddPrefix)
    ensures ParseUserInput(input, recipes).AddIngredientsToCart? <==>
      exists k :: 0 <= k < |recipes| && Lower(recipes[k].name) == Lower(RemoveFirst(input, AddPrefix + " "))
    ensures ParseUserInput(input, recipes).AddIngredientsToCart? ==>
      ParseUserInput(input, recipes).recipe in recipes
    ensures !ParseUserInput(input, recipes).AddIngredientsToCart? ==>
      ParseUserInput(input, recipes) == QuantityChange(input)
    ensures StartsWith(input, AddPrefix + " ") ==>
      RemoveFirst(input, AddPrefix + " ") == input[|AddPrefix| + 1..]
  {
    if StartsWith(input, AddPrefix + " ") {
      RemoveFirstPrefix(input, AddPrefix + " ");
    }
    QuantityNeverAdds(input);
  }

  /** The quantity stage yields only a quantity change or `Unknown`. */
  lemma QuantityNeverAdds(input: string)
    ensures QuantityChange(input).UpdateItemQuantity? || QuantityChange(input) == Unknown
  {
  }

  /** Past the first four rules and without the add prefix, "remove all" or "clear all" anywhere empties the cart. */
  lemma RemoveAllRule(input: string, recipes: seq<Recipe>)
    requires PassesEarlyRules(input) && !StartsWith(input, AddPrefix)
    ensures ParseUserInput(input, recipes) == RemoveAllFromCart <==>
      Contains(input, "remove all") || Contains(input, "clear all")
  {
    QuantityNeverAdds(input);
  }

  /** Outside the first five rules, classification is decided by the quantity templates alone. */
  lemma ParseFallsToTemplates(input: string, recipes: seq<Recipe>)
    requires PassesEarlyRules(input) && !StartsWith(input, AddPrefix)
    requires !Contains(input, "remove all") && !Contains(input, "clear all")
    ensures ParseUserInput(input, recipes) == QuantityChange(input)
  {
  }

  /**
   * The templates are tried in order: the chosen direction's template
   * matched, every earlier one did not, and `Unknown` means none matched.
   */
  lemma QuantityOrder(input: string)
    ensures QuantityChange(input) == Unknown <==>
      MatchTemplate(input, Increase).None? && MatchTemplate(input, Decrease).None? &&
      MatchTemplate(input, Add).None? && MatchTemplate(input, Subtract).None?
    ensures QuantityChange(input).UpdateItemQuantity? ==>
      var a := QuantityChange(input);
      MatchTemplate(input, a.direction) == Some((a.itemName, a.value)) &&
      (a.direction != Increase ==> MatchTemplate(input, Increase).None?) &&
      (a.direction == Add || a.direction == Subtract ==> MatchTemplate(input, Decrease).None?) &&
      (a.direction == Subtract ==> MatchTemplate(input, Add).None?)
  {
  }

  /** A typed "<verb> the quantity of '<item>' by <n>" reads back, in the quantity stage, as that change. */
  lemma QuantityPhrase(d: Direction, item: string, amount: nat)
    requires '\'' !in item
    ensures QuantityChange(Phrase(d, item, amount)) == UpdateItemQuantity(item, d, amount)
  {
    var p := Phrase(d, item, amount);
    TemplateRoundTrip(d, item, amount);
    if d != Increase {
      OtherTemplateMisses(d, Increase, item, amount);
    }
    if d == Add || d == Subtract {
      OtherTemplateMisses(d, Decrease, item, amount);
    }
    if d == Subtract {
      OtherTemplateMisses(d, Add, item, amount);
    }
  }

  /**
   * A typed quantity phrase in which none of the earlier rules' phrases
   * occurs is classified as that change by the whole classifier.
   */
  lemma PhraseClassifies(d: Direction, item: string, amount: nat, recipes: seq<Recipe>)
    requires '\'' !in item
    requires var p := Phrase(d, item, amount);
      !Contains(p, "what can I make") && !Contains(p, "closest recipes") &&
      !Contains(p, "remove all") && !Contains(p, "clear all")
    ensures ParseUserInput(Phrase(d, item, amount), recipes) == UpdateItemQuantity(item, d, amount)
  {
    PhrasePrefixes(d, item, amount);
    ParseFallsToTemplates(Phrase(d, item, amount), recipes);
    QuantityPhrase(d, item, amount);
  }

  /** A quantity phrase starts with its verb, so neither "search" nor "add ingredients for" begins it. */
  lemma PhrasePrefixes(d: Direction, item: string, amount: nat)
    ensures !StartsWith(Phrase(d, item, amount), "search")
    ensures !StartsWith(Phrase(d, item, amount), AddPrefix)
  {
    var p, o := Phrase(d, item, amount), Opening(d);
    assert p[..|o|] == o;
    assert p[0] == o[0] && p[1] == o[1] && p[4] == o[4];
  }

  /** The only quotes of a quantity phrase are the two around its item. */
  lemma PhraseQuotes(d: Direction, item: string, amount: nat, k: int)
    requires '\'' !in item
    requires 0 <= k < |Phrase(d, item, amount)| && Phrase(d, item, amount)[k] == '\''
    ensures k == |Opening(d)| - 1 || k == |Opening(d)| + |item|
  {
    var o := Opening(d);
    var p := Phrase(d, item, amount);
    if k < |o| {
      assert o[k] == '\'';
      assert forall t :: 0 <= t < |o| - 1 ==> o[t] != '\'';
    } else if |o| + |item| <= k < |o| + |item| + |Closing| {
      assert p[k] == Closing[k - |o| - |item|];
    }
  }

  /** A template occurrence has a quote where its opening ends and another right after its item. */
  lemma OccurrenceQuotes(p: string, j: int, e: Direction, item': string, ds: string)
    requires OccursAt(p, j, e, item', ds)
    ensures j + |Opening(e)| + |item'| < |p|
    ensures p[j + |Opening(e)| - 1] == '\'' && p[j + |Opening(e)| + |item'|] == '\''
  {
    var w := Opening(e) + item' + Closing + ds;
    assert p[j..][..|w|] == w;
    assert w[|Opening(e)| - 1] == '\'' && w[|Opening(e)| + |item'|] == '\'';
    assert p[j + |Opening(e)| - 1] == p[j..][..|w|][|Opening(e)| - 1];
    assert p[j + |Opening(e)| + |item'|] == p[j..][..|w|][|Opening(e)| + |item'|];
  }

  /** The opening of an occurrence at `j` is read from the phrase at `j`. */
  lemma OccurrenceReadsOpening(d: Direction, e: Direction, item: string, amount: nat, j: int, item': string, ds: string)
    requires OccursAt(Phrase(d, item, amount), j, e, item', ds) && j + |Opening(e)| == |Opening(d)|
    ensures Opening(d)[j..] == Opening(e)
  {
    var p, o := Phrase(d, item, amount), Opening(d);
    var w := Opening(e) + item' + Closing + ds;
    assert p[j..][..|w|] == w;
    assert p[..|o|] == o;
    forall t | 0 <= t < |Opening(e)| ensures o[j..][t] == Opening(e)[t] {
      assert Opening(e)[t] == w[t] == p[j + t] == o[j + t];
    }
  }

  /** A template occurrence inside a quantity phrase ends its opening at the phrase's first quote. */
  lemma OccurrenceOpening(d: Direction, e: Direction, item: string, amount: nat, j: int, item': string, ds: string)
    requires '\'' !in item
    requires OccursAt(Phrase(d, item, amount), j, e, item', ds)
    ensures 0 <= j && j + |Opening(e)| == |Opening(d)| && Opening(d)[j..] == Opening(e)
  {
    var p := Phrase(d, item, amount);
    OccurrenceQuotes(p, j, e, item', ds);
    PhraseQuotes(d, item, amount, j + |Opening(e)| - 1);
    PhraseQuotes(d, item, amount, j + |Opening(e)| + |item'|);
    OccurrenceReadsOpening(d, e, item, amount, j, item', ds);
  }

  /** No template's opening is a proper suffix of another's: the verbs differ in their ends. */
  lemma OpeningSuffix(d: Direction, e: Direction, j: int)
    requires 0 <= j && j + |Opening(e)| == |Opening(d)| && Opening(d)[j..] == Opening(e)
    ensures e == d && j == 0
  {
    assert Opening(e)[0] == Opening(d)[j];
    assert Opening(e)[1] == Opening(d)[j + 1];
  }

  /** Any template occurrence inside a quantity phrase is the phrase's own template, at its start. */
  lemma OnlyOwnTemplate(d: Direction, e: Direction, item: string, amount: nat, j: int, item': string, ds: string)
    requires '\'' !in item
    requires OccursAt(Phrase(d, item, amount), j, e, item', ds)
    ensures e == d && j == 0
  {
    OccurrenceOpening(d, e, item, amount, j, item', ds);
    OpeningSuffix(d, e, j);
  }

  /** A quantity phrase is not matched by any other direction's template. */
  lemma OtherTemplateMisses(d: Direction, e: Direction, item: string, amount: nat)
    requires '\'' !in item && e != d
    ensures MatchTemplate(Phrase(d, item, amount), e).None?
  {
    var p := Phrase(d, item, amount);
    if MatchTemplate(p, e).Some? {
      var m := MatchTemplate(p, e).value;
      var i, ds := MatchTemplateSound(p, e, m.0, m.1);
      OnlyOwnTemplate(d, e, item, amount, i, m.0, ds);
      assert false;
    }
  }
}
