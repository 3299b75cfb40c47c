/**
 * The product listing of `src/pages/HomePage.jsx`: `updateDisplayedItems`
 * (case-insensitive title search, a stable sort on the key the sort
 * selector names, and a page of twenty), and the page buttons.
 */
module ProductListing {
  import opened Seqs
  import opened Strings
  import opened Catalog

  /** `itemsPerPage`. */
  const ItemsPerPage: int := 20

  // ---------------------------------------------------------------
  // Search
  // ---------------------------------------------------------------

  /** `product.title.toLowerCase().includes(query.toLowerCase())`. */
  function MatchesQuery(query: string): Product -> bool
  {
    (p: Product) => Contains(Lower(p.title), Lower(query))
  }

  function FilterByQuery(items: seq<Product>, query: string): seq<Product>
  {
    Filter(items, MatchesQuery(query))
  }

  /**
   * The search keeps exactly the products whose title contains the
   * query, ignoring case, each as often as listed, in catalogue order.
   */
  lemma FilterByQuerySpec(items: seq<Product>, query: string)
    ensures forall p :: p in FilterByQuery(items, query) <==> p in items && Contains(Lower(p.title), Lower(query))
    ensures forall p ::
      multiset(FilterByQuery(items, query))[p] == if Contains(Lower(p.title), Lower(query)) then multiset(items)[p] else 0
    ensures IsSubsequence(FilterByQuery(items, query), items)
  {
    FilterSpec(items, MatchesQuery(query));
  }

  /** The empty query keeps every product. */
  lemma EmptyQueryKeepsAll(items: seq<Product>)
    ensures FilterByQuery(items, "") == items
  {
    forall i | 0 <= i < |items| ensures MatchesQuery("")(items[i]) {
      assert StartsWith(Lower(items[i].title), Lower(""));
    }
    FilterAll(items, MatchesQuery(""));
  }

  // ---------------------------------------------------------------
  // Sort
  // ---------------------------------------------------------------

  /** The orders the sort selector offers; any other value leaves the search order. */
  datatype SortOrder = PriceLowToHigh | PriceHighToLow | ByRating | Unsorted

  function OrderOf(sortBy: string): SortOrder
  {
    if sortBy == "priceLowToHigh" then PriceLowToHigh
    else if sortBy == "priceHighToLow" then PriceHighToLow
    else if sortBy == "rating" then ByRating
    else Unsorted
  }

  /**
   * The ascending key each comparator sorts by: `a.price - b.price`
   * sorts by price, `b.price - a.price` by negated price, and
   * `b.rating - a.rating` by negated rating.
   */
  function Key(order: SortOrder, p: Product): int
  {
    match order
    case PriceLowToHigh => p.price
    case PriceHighToLow => -p.price
    case ByRating => -p.rating
    case Unsorted => 0
  }

  predicate SortedByKey(s: seq<Product>, order: SortOrder)
  {
    forall i, j :: 0 <= i < j < |s| ==> Key(order, s[i]) <= Key(order, s[j])
  }

  /** Place `x` after the last element of `t` whose key is not greater than its own. */
  function InsertByKey(t: seq<Product>, x: Product, order: SortOrder): seq<Product>
    decreases |t|
  {
    if t == [] || Key(order, t[|t| - 1]) <= Key(order, x) then t + [x]
    else InsertByKey(t[..|t| - 1], x, order) + [t[|t| - 1]]
  }

  /**
   * The stable sort by key, the order `Array.prototype.sort` must
   * produce with these comparators: ascending key, ties in input order.
   */
  function StableSort(s: seq<Product>, order: SortOrder): seq<Product>
    decreases |s|
  {
    if s == [] then [] else InsertByKey(StableSort(s[..|s| - 1], order), s[|s| - 1], order)
  }

  /** `sortedProducts` after the `if` on the order: sorted for a known order, untouched otherwise. */
  function Arrange(s: seq<Product>, order: SortOrder): seq<Product>
  {
    if order == Unsorted then s else StableSort(s, order)
  }

  /** Inserting adds exactly `x`. */
  lemma {:induction false} InsertByKeyMultiset(t: seq<Product>, x: Product, order: SortOrder)
    ensures multiset(InsertByKey(t, x, order)) == multiset(t) + multiset{x}
    decreases |t|
  {
    if !(t == [] || Key(order, t[|t| - 1]) <= Key(order, x)) {
      InsertByKeyMultiset(t[..|t| - 1], x, order);
      assert t == t[..|t| - 1] + [t[|t| - 1]];
    }
  }

  /** Inserting keeps every key under a bound that all the elements and `x` respect. */
  lemma {:induction false} InsertByKeyBounded(t: seq<Product>, x: Product, order: SortOrder, bound: int)
    requires forall k :: 0 <= k < |t| ==> Key(order, t[k]) <= bound
    requires Key(order, x) <= bound
    ensures forall k :: 0 <= k < |InsertByKey(t, x, order)| ==> Key(order, InsertByKey(t, x, order)[k]) <= bound
    decreases |t|
  {
    if !(t == [] || Key(order, t[|t| - 1]) <= Key(order, x)) {
      var init := t[..|t| - 1];
      assert forall k :: 0 <= k < |init| ==> init[k] == t[k];
      InsertByKeyBounded(init, x, order, bound);
    }
  }

  /** Inserting into a sorted sequence keeps it sorted. */
  lemma {:induction false} InsertByKeySorted(t: seq<Product>, x: Product, order: SortOrder)
    requires SortedByKey(t, order)
    ensures SortedByKey(InsertByKey(t, x, order), order)
    decreases |t|
  {
    if !(t == [] || Key(order, t[|t| - 1]) <= Key(order, x)) {
      var init, last := t[..|t| - 1], t[|t| - 1];
      assert forall k :: 0 <= k < |init| ==> init[k] == t[k];
      InsertByKeySorted(init, x, order);
      InsertByKeyBounded(init, x, order, Key(order, last));
      var r := InsertByKey(init, x, order);
      var u := r + [last];
      forall i, j | 0 <= i < j < |u| ensures Key(order, u[i]) <= Key(order, u[j]) {
        assert u[i] == r[i];
        if j < |r| {
          assert u[j] == r[j];
        }
      }
    }
  }

  /** Inserting `x` adds it to the elements of its own key, after those already there. */
  lemma {:induction false} InsertByKeySameKey(t: seq<Product>, x: Product, order: SortOrder, f: Product -> bool)
    requires forall p :: f(p) <==> Key(order, p) == Key(order, x)
    ensures Filter(InsertByKey(t, x, order), f) == Filter(t, f) + [x]
    decreases |t|
  {
    if t == [] || Key(order, t[|t| - 1]) <= Key(order, x) {
      FilterAppend(t, [x], f);
    } else {
      var init, last := t[..|t| - 1], t[|t| - 1];
      InsertByKeySameKey(init, x, order, f);
      FilterAppend(InsertByKey(init, x, order), [last], f);
      FilterAppend(init, [last], f);
      assert t == init + [last];
    }
  }

  /** Inserting `x` leaves the elements of any other key as they were. */
  lemma {:induction false} InsertByKeyOtherKey(t: seq<Product>, x: Product, order: SortOrder, f: Product -> bool)
    requires !f(x)
    ensures Filter(InsertByKey(t, x, order), f) == Filter(t, f)
    decreases |t|
  {
    if t == [] || Key(order, t[|t| - 1]) <= Key(order, x) {
      FilterAppend(t, [x], f);
    } else {
      var init, last := t[..|t| - 1], t[|t| - 1];
      InsertByKeyOtherKey(init, x, order, f);
      FilterAppend(InsertByKey(init, x, order), [last], f);
      FilterAppend(init, [last], f);
      assert t == init + [last];
    }
  }

  /** The products whose key is `k`. */
  function HasSortKey(order: SortOrder, k: int): Product -> bool
  {
    (p: Product) => Key(order, p) == k
  }

  /** The stable sort is sorted by key. */
  lemma {:induction false} StableSortSorted(s: seq<Product>, order: SortOrder)
    ensures SortedByKey(StableSort(s, order), order)
    decreases |s|
  {
    if s != [] {
      StableSortSorted(s[..|s| - 1], order);
      InsertByKeySorted(StableSort(s[..|s| - 1], order), s[|s| - 1], order);
    }
  }

  /** The stable sort is a permutation of its input. */
  lemma {:induction false} StableSortMultiset(s: seq<Product>, order: SortOrder)
    ensures multiset(StableSort(s, order)) == multiset(s)
    decreases |s|
  {
    if s != [] {
      var init, last := s[..|s| - 1], s[|s| - 1];
      StableSortMultiset(init, order);
      InsertByKeyMultiset(StableSort(init, order), last, order);
      assert s == init + [last];
    }
  }

  /** The stable sort keeps the input order among products of equal key. */
  lemma {:induction false} StableSortStable(s: seq<Product>, order: SortOrder)
    ensures forall k :: Filter(StableSort(s, order), HasSortKey(order, k)) == Filter(s, HasSortKey(order, k))
    decreases |s|
  {
    if s != [] {
      var init, last := s[..|s| - 1], s[|s| - 1];
      StableSortStable(init, order);
      var t := StableSort(init, order);
      assert s == init + [last];
      forall k ensures Filter(StableSort(s, order), HasSortKey(order, k)) == Filter(s, HasSortKey(order, k)) {
        var f := HasSortKey(order, k);
        FilterAppend(init, [last], f);
        if Key(order, last) == k {
          InsertByKeySameKey(t, last, order, f);
        } else {
          InsertByKeyOtherKey(t, last, order, f);
        }
      }
    }
  }

  /**
   * The stable sort is sorted, is a permutation of its input, and keeps
   * the input order among products of equal key.
   */
  lemma StableSortSpec(s: seq<Product>, order: SortOrder)
    ensures SortedByKey(StableSort(s, order), order)
    ensures multiset(StableSort(s, order)) == multiset(s)
    ensures forall k :: Filter(StableSort(s, order), HasSortKey(order, k)) == Filter(s, HasSortKey(order, k))
  {
    StableSortSorted(s, order);
    StableSortMultiset(s, order);
    StableSortStable(s, order);
  }

  /** What an insertion-sort pass produces when it stops in front of position `j`. */
  lemma {:induction false} InsertSplit(t: seq<Product>, x: Product, order: SortOrder, j: nat)
    requires j <= |t|
    requires forall q :: j <= q < |t| ==> Key(order, t[q]) > Key(order, x)
    requires j == 0 || Key(order, t[j - 1]) <= Key(order, x)
    ensures InsertByKey(t, x, order) == t[..j] + [x] + t[j..]
    decreases |t|
  {
    if j < |t| {
      var init := t[..|t| - 1];
      assert forall q :: j <= q < |init| ==> init[q] == t[q];
      InsertSplit(init, x, order, j);
      assert init[..j] == t[..j];
      assert t[j..] == init[j..] + [t[|t| - 1]];
    }
  }

  /**
   * One insertion-sort pass: shift the elements before position `i`
   * whose key is greater than that of `a[i]` one place up, and put
   * `a[i]` into the gap at `j`.
   */
  method InsertPass(a: array<Product>, i: nat, order: SortOrder) returns (j: nat)
    requires i < a.Length
    modifies a
    ensures j <= i
    ensures forall q :: 0 <= q < j ==> a[q] == old(a[q])
    ensures a[j] == old(a[i])
    ensures forall q :: j < q <= i ==> a[q] == old(a[q - 1])
    ensures forall q :: i < q < a.Length ==> a[q] == old(a[q])
    ensures forall q :: j <= q < i ==> Key(order, old(a[q])) > Key(order, old(a[i]))
    ensures j == 0 || Key(order, old(a[j - 1])) <= Key(order, old(a[i]))
  {
    var x := a[i];
    j := i;
    while j > 0 && Key(order, a[j - 1]) > Key(order, x)
      invariant 0 <= j <= i
      invariant forall q :: 0 <= q < j ==> a[q] == old(a[q])
      invariant forall q :: j < q <= i ==> a[q] == old(a[q - 1])
      invariant forall q :: i < q < a.Length ==> a[q] == old(a[q])
      invariant forall q :: j <= q < i ==> Key(order, old(a[q])) > Key(order, x)
    {
      a[j] := a[j - 1];
      j := j - 1;
    }
    a[j] := x;
  }

  /** The sequence an insertion pass leaves, described position by position, as slices. */
  lemma PassResult(before: seq<Product>, after: seq<Product>, i: nat, j: nat)
    requires |before| == |after| && j <= i < |before|
    requires forall q :: 0 <= q < j ==> after[q] == before[q]
    requires after[j] == before[i]
    requires forall q :: j < q <= i ==> after[q] == before[q - 1]
    requires forall q :: i < q < |after| ==> after[q] == before[q]
    ensures after[..i + 1] == before[..i][..j] + [before[i]] + before[..i][j..]
  {
  }

  /** After the pass at position `i`, the first `i + 1` elements are the stable sort of the input's. */
  lemma SortStep(original: seq<Product>, before: seq<Product>, after: seq<Product>, i: nat, j: nat, order: SortOrder)
    requires |before| == |after| == |original| && j <= i < |before|
    requires before[..i] == StableSort(original[..i], order) && before[i] == original[i]
    requires forall q :: j <= q < i ==> Key(order, before[q]) > Key(order, before[i])
    requires j == 0 || Key(order, before[j - 1]) <= Key(order, before[i])
    requires forall q :: 0 <= q < j ==> after[q] == before[q]
    requires after[j] == before[i]
    requires forall q :: j < q <= i ==> after[q] == before[q - 1]
    requires forall q :: i < q < |after| ==> after[q] == before[q]
    ensures after[..i + 1] == StableSort(original[..i + 1], order)
  {
    PassResult(before, after, i, j);
    var t, x := before[..i], before[i];
    assert j > 0 ==> t[j - 1] == before[j - 1];
    assert forall q :: j <= q < |t| ==> t[q] == before[q];
    InsertSplit(t, x, order, j);
    var s := original[..i + 1];
    assert s[..|s| - 1] == original[..i] && s[|s| - 1] == x;
    assert StableSort(s, order) == InsertByKey(t, x, order);
  }

  /** `sortedProducts.sort(comparator)`, as an insertion sort on the copied array. */
  method SortProducts(a: array<Product>, order: SortOrder)
    modifies a
    ensures a[..] == StableSort(old(a[..]), order)
  {
    ghost var original := a[..];
    var i := 0;
    while i < a.Length
      invariant 0 <= i <= a.Length
      invariant a[..i] == StableSort(original[..i], order)
      invariant forall q :: i <= q < a.Length ==> a[q] == original[q]
    {
      ghost var before := a[..];
      var j := InsertPass(a, i, order);
      SortStep(original, before, a[..], i, j, order);
      assert a[..i + 1] == a[..][..i + 1];
      i := i + 1;
    }
    assert original[..a.Length] == original;
  }

  // ---------------------------------------------------------------
  // Page slice
  // ---------------------------------------------------------------

  /** How `Array.prototype.slice` resolves an index: negatives count from the end, then clamp. */
  function SliceIndex(x: int, len: nat): (r: nat)
    ensures r <= len
    ensures 0 <= x <= len ==> r == x
  {
    if x < 0 then (if len + x < 0 then 0 else len + x) else if x > len then len else x
  }

  /** `s.slice(start, end)`. */
  function JsSlice<T>(s: seq<T>, start: int, end: int): seq<T>
  {
    var b, e := SliceIndex(start, |s|), SliceIndex(end, |s|);
    if b < e then s[b..e] else []
  }

  /** A slice never holds more than `end - start` elements, whatever the signs. */
  lemma JsSliceLength<T>(s: seq<T>, start: int, end: int)
    requires start <= end
    ensures |JsSlice(s, start, end)| <= end - start
  {
  }

  /** A slice is a sub-multiset of what it is cut from. */
  lemma JsSliceMultiset<T>(s: seq<T>, start: int, end: int)
    ensures multiset(JsSlice(s, start, end)) <= multiset(s)
  {
    var b, e := SliceIndex(start, |s|), SliceIndex(end, |s|);
    if b < e {
      assert s == s[..b] + s[b..e] + s[e..];
    }
  }

  /** `updateDisplayedItems(items, page, sortBy, query)`'s page of the filtered, sorted list. */
  function Displayed(items: seq<Product>, page: int, sortBy: string, query: string): seq<Product>
  {
    JsSlice(Arrange(FilterByQuery(items, query), OrderOf(sortBy)), (page - 1) * ItemsPerPage, page * ItemsPerPage)
  }

  /** At most twenty products are shown, on any page number. */
  lemma DisplayedAtMostOnePage(items: seq<Product>, page: int, sortBy: string, query: string)
    ensures |Displayed(items, page, sortBy, query)| <= ItemsPerPage
  {
    JsSliceLength(Arrange(FilterByQuery(items, query), OrderOf(sortBy)), (page - 1) * ItemsPerPage, page * ItemsPerPage);
  }

  /** Page `p` from 1 on shows positions `(p-1)*20` up to `p*20` of the sorted list, as many as exist. */
  lemma DisplayedPage(items: seq<Product>, page: int, sortBy: string, query: string)
    requires page >= 1
    ensures var sorted := Arrange(FilterByQuery(items, query), OrderOf(sortBy));
      var first := (page - 1) * ItemsPerPage;
      var shown := Displayed(items, page, sortBy, query);
      (|shown| == if |sorted| <= first then 0 else if |sorted| - first < ItemsPerPage then |sorted| - first else ItemsPerPage) &&
      forall k :: 0 <= k < |shown| ==> shown[k] == sorted[first + k]
  {
  }

  /**
   * Everything shown matches the search and is one of the filtered
   * products, shown no more often than it occurs there.
   */
  lemma DisplayedMatches(items: seq<Product>, page: int, sortBy: string, query: string)
    ensures var shown := Displayed(items, page, sortBy, query);
      (forall p :: p in shown ==> p in items && Contains(Lower(p.title), Lower(query))) &&
      multiset(shown) <= multiset(FilterByQuery(items, query))
  {
    var filtered := FilterByQuery(items, query);
    var order := OrderOf(sortBy);
    var shown := Displayed(items, page, sortBy, query);
    StableSortSpec(filtered, order);
    JsSliceMultiset(Arrange(filtered, order), (page - 1) * ItemsPerPage, page * ItemsPerPage);
    FilterByQuerySpec(items, query);
    forall p | p in shown ensures p in filtered {
      assert p in multiset(shown);
    }
  }

  /** A slice of a sorted sequence is sorted. */
  lemma JsSliceSorted(s: seq<Product>, order: SortOrder, start: int, end: int)
    requires SortedByKey(s, order)
    ensures SortedByKey(JsSlice(s, start, end), order)
  {
    var b, e := SliceIndex(start, |s|), SliceIndex(end, |s|);
    var r := JsSlice(s, start, end);
    if b < e {
      forall i, j | 0 <= i < j < |r| ensures Key(order, r[i]) <= Key(order, r[j]) {
        assert r[i] == s[b + i] && r[j] == s[b + j];
      }
    }
  }

  /**
   * The page is in the order the sort selector names: ascending or
   * descending price, descending rating, or the search order for any
   * other value.
   */
  lemma DisplayedOrder(items: seq<Product>, page: int, sortBy: string, query: string)
    ensures var shown := Displayed(items, page, sortBy, query);
      (sortBy == "priceLowToHigh" ==> forall i, j :: 0 <= i < j < |shown| ==> shown[i].price <= shown[j].price) &&
      (sortBy == "priceHighToLow" ==> forall i, j :: 0 <= i < j < |shown| ==> shown[i].price >= shown[j].price) &&
      (sortBy == "rating" ==> forall i, j :: 0 <= i < j < |shown| ==> shown[i].rating >= shown[j].rating) &&
      (OrderOf(sortBy) == Unsorted ==>
        shown == JsSlice(FilterByQuery(items, query), (page - 1) * ItemsPerPage, page * ItemsPerPage))
  {
    var filtered := FilterByQuery(items, query);
    var order := OrderOf(sortBy);
    if order != Unsorted {
      StableSortSpec(filtered, order);
      JsSliceSorted(Arrange(filtered, order), order, (page - 1) * ItemsPerPage, page * ItemsPerPage);
    }
  }

  /**
   * With no search and a page numbered from 1, there are more products
   * than the pages so far hold exactly when the next page is not empty.
   */
  lemma NextPageIff(products: seq<Product>, page: int, sortBy: string)
    ensures page >= 1 ==> (page * ItemsPerPage < |products| <==> Displayed(products, page + 1, sortBy, "") != [])
  {
    if page >= 1 {
      EmptyQueryKeepsAll(products);
      StableSortSpec(products, OrderOf(sortBy));
      assert |Arrange(products, OrderOf(sortBy))| == |multiset(Arrange(products, OrderOf(sortBy)))|;
      DisplayedPage(products, page + 1, sortBy, "");
    }
  }

  /** A page after the first that shows something follows a full page. */
  lemma PreviousPageFull(items: seq<Product>, page: int, sortBy: string, query: string)
    ensures page >= 2 && Displayed(items, page, sortBy, query) != [] ==>
      |Displayed(items, page - 1, sortBy, query)| == ItemsPerPage
  {
    if page >= 2 {
      DisplayedPage(items, page, sortBy, query);
      DisplayedPage(items, page - 1, sortBy, query);
    }
  }

  // ---------------------------------------------------------------
  // The page component
  // ---------------------------------------------------------------

  /** The listing state of the home page. */
  class HomePage {
    var products: seq<Product>
    var displayedItems: seq<Product>
    var sortBy: string
    var searchQuery: string
    var currentPage: int

    /** The effect on `[sortBy, currentPage, products, searchQuery]` has run. */
    ghost predicate Valid()
      reads this
    {
      displayedItems == Displayed(products, currentPage, sortBy, searchQuery)
    }

    constructor ()
      ensures Valid()
      ensures products == [] && displayedItems == [] && sortBy == "" && searchQuery == "" && currentPage == 1
    {
      products := [];
      displayedItems := [];
      sortBy := "";
      searchQuery := "";
      currentPage := 1;
    }

    /**
     * `updateDisplayedItems(items, page, sort, query)`. The sort branch
     * reads the `sortBy` state, so the `sort` argument has no effect.
     */
    method UpdateDisplayedItems(items: seq<Product>, page: int, sort: string, query: string)
      modifies this
      ensures displayedItems == Displayed(items, page, sortBy, query)
      ensures products == old(products) && sortBy == old(sortBy) &&
        searchQuery == old(searchQuery) && currentPage == old(currentPage)
    {
      var filteredProducts := FilterByQuery(items, query);
      var sortedProducts := new Product[|filteredProducts|](i requires 0 <= i < |filteredProducts| => filteredProducts[i]);
      assert sortedProducts[..] == filteredProducts;
      var order := OrderOf(sortBy);
      if order != Unsorted {
        SortProducts(sortedProducts, order);
      }
      var indexOfLastItem := page * ItemsPerPage;
      var indexOfFirstItem := indexOfLastItem - ItemsPerPage;
      displayedItems := JsSlice(sortedProducts[..], indexOfFirstItem, indexOfLastItem);
    }

    /** The products fetched on mount arrive: store them, show page 1, then the effect runs. */
    method LoadProducts(data: seq<Product>)
      modifies this
      ensures Valid()
      ensures products == data && sortBy == old(sortBy) && searchQuery == old(searchQuery) && currentPage == old(currentPage)
    {
      products := data;
      UpdateDisplayedItems(data, 1, "", "");
      UpdateDisplayedItems(products, currentPage, sortBy, searchQuery);
    }

    /** The search box changes `searchQuery`; the page number stays. */
    method SetSearchQuery(query: string)
      modifies this
      ensures Valid()
      ensures searchQuery == query && products == old(products) && sortBy == old(sortBy) && currentPage == old(currentPage)
    {
      searchQuery := query;
      UpdateDisplayedItems(products, currentPage, sortBy, searchQuery);
    }

    /** The sort selector changes `sortBy`; the page number stays. */
    method SetSortBy(value: string)
      modifies this
      ensures Valid()
      ensures sortBy == value && products == old(products) && searchQuery == old(searchQuery) && currentPage == old(currentPage)
    {
      sortBy := value;
      UpdateDisplayedItems(products, currentPage, sortBy, searchQuery);
    }

    /** `nextPage`: pressed while "Next" shows with no search, it never leads to an empty page. */
    method NextPage()
      modifies this
      ensures Valid()
      ensures currentPage == old(currentPage) + 1
      ensures products == old(products) && sortBy == old(sortBy) && searchQuery == old(searchQuery)
      ensures old(currentPage >= 1 && ShowNext() && searchQuery == "") ==> displayedItems != []
    {
      currentPage := currentPage + 1;
      UpdateDisplayedItems(products, currentPage, sortBy, searchQuery);
    }

    /**
     * `prevPage`: pressed while "Previous" shows, the new page is still
     * numbered from 1, so `DisplayedPage` describes what it shows.
     */
    method PrevPage()
      modifies this
      ensures Valid()
      ensures currentPage == old(currentPage) - 1
      ensures products == old(products) && sortBy == old(sortBy) && searchQuery == old(searchQuery)
      ensures old(ShowPrevious()) ==> currentPage >= 1
      ensures old(Valid() && ShowPrevious() && displayedItems != []) ==> |displayedItems| == ItemsPerPage
    {
      currentPage := currentPage - 1;
      UpdateDisplayedItems(products, currentPage, sortBy, searchQuery);
    }

    /**
     * The "Previous" button is rendered. While a page it shows is not
     * empty, the page it leads to is full.
     */
    predicate ShowPrevious()
      reads this
      ensures ShowPrevious() && displayedItems == Displayed(products, currentPage, sortBy, searchQuery) && displayedItems != [] ==>
        |Displayed(products, currentPage - 1, sortBy, searchQuery)| == ItemsPerPage
    {
      PreviousPageFull(products, currentPage, sortBy, searchQuery);
      currentPage > 1
    }

    /**
     * The "Next" button is rendered; it counts all products, not the
     * search results. With no search and a page numbered from 1, it is
     * rendered exactly when the next page is not empty.
     */
    predicate ShowNext()
      reads this
      ensures currentPage >= 1 && searchQuery == "" ==>
        (ShowNext() <==> Displayed(products, currentPage + 1, sortBy, searchQuery) != [])
    {
      NextPageIff(products, currentPage, sortBy);
      currentPage * ItemsPerPage < |products|
    }
  }
}
