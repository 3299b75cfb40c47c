/**
 * The cart store of `src/contexts/CartContext.js`: the `cartItems`
 * state and its three transitions `addToCart`, `removeFromCart` and
 * `updateQuantity`, each computed from the previous lines with
 * `find`/`map`/`filter` and then stored with `setCartItems`.
 */
module CartContext {
  import opened Catalog
  import opened Seqs

  /** One cart line: the product's fields spread into the line, plus a quantity. */
  datatype CartLine = CartLine(product: Product, quantity: int)
  {
    function Id(): int { product.id }
    function Title(): string { product.title }
  }

  /** The body entry `{ id, quantity }` of one `PUT` the store sends to the cart server. */
  datatype CartRequest = CartRequest(productId: int, quantity: int)

  /** `items.find(item => item.id === id)` finds something. */
  predicate HasId(items: seq<CartLine>, id: int)
  {
    exists i :: 0 <= i < |items| && items[i].Id() == id
  }

  /** The store's invariant: every quantity is at least 1 and no id occurs twice. */
  predicate ValidLines(items: seq<CartLine>)
  {
    (forall i :: 0 <= i < |items| ==> items[i].quantity >= 1) &&
    (forall i, j :: 0 <= i < j < |items| ==> items[i].Id() != items[j].Id())
  }

  /** `Math.max(q, 1)`. */
  function AtLeastOne(q: int): int
  {
    if q > 1 then q else 1
  }

  /** The lines after `addToCart(product)`. */
  function AfterAdd(items: seq<CartLine>, product: Product): seq<CartLine>
  {
    if HasId(items, product.id) then
      seq(|items|, i requires 0 <= i < |items| =>
        if items[i].Id() == product.id then items[i].(quantity := items[i].quantity + 1) else items[i])
    else
      items + [CartLine(product, 1)]
  }

  /** The filter `item.id !== id` used by `removeFromCart`. */
  function KeepsLine(id: int): CartLine -> bool
  {
    (line: CartLine) => line.Id() != id
  }

  /** The lines after `removeFromCart(id)`. */
  function AfterRemove(items: seq<CartLine>, id: int): seq<CartLine>
  {
    Filter(items, KeepsLine(id))
  }

  /** The lines after `updateQuantity(id, quantity)`. */
  function AfterUpdate(items: seq<CartLine>, id: int, quantity: int): seq<CartLine>
  {
    seq(|items|, i requires 0 <= i < |items| =>
      if items[i].Id() == id then items[i].(quantity := AtLeastOne(quantity)) else items[i])
  }

  /** The quantity on the (first) line for `id`, or 0 when the cart has no such line. */
  function QuantityOf(items: seq<CartLine>, id: int): int
    decreases |items|
  {
    if items == [] then 0
    else if items[0].Id() == id then items[0].quantity
    else QuantityOf(items[1..], id)
  }

  /** A cart without a line for `id` holds none of it. */
  lemma {:induction false} QuantityOfAbsent(items: seq<CartLine>, id: int)
    requires !HasId(items, id)
    ensures QuantityOf(items, id) == 0
    decreases |items|
  {
    if items != [] {
      assert items[0].Id() != id;
      QuantityOfAbsent(items[1..], id);
    }
  }

  /**
   * Lines rewritten position by position, keeping every id and adding `c`
   * to the quantity of each line for `id`, raise that id's quantity by
   * `c` when it has a line.
   */
  lemma {:induction false} QuantityOfBump(a: seq<CartLine>, b: seq<CartLine>, id: int, c: int)
    requires |a| == |b|
    requires forall i :: 0 <= i < |a| ==> b[i].Id() == a[i].Id()
    requires forall i :: 0 <= i < |a| && a[i].Id() == id ==> b[i].quantity == a[i].quantity + c
    ensures QuantityOf(b, id) == QuantityOf(a, id) + (if HasId(a, id) then c else 0)
    decreases |a|
  {
    if a == [] {
    } else if a[0].Id() == id {
      assert HasId(a, id);
    } else {
      QuantityOfBump(a[1..], b[1..], id, c);
      assert HasId(a[1..], id) <==> HasId(a, id) by {
        if HasId(a, id) {
          var i :| 0 <= i < |a| && a[i].Id() == id;
          assert i != 0 && a[1..][i - 1].Id() == id;
        }
        if HasId(a[1..], id) {
          var i :| 0 <= i < |a[1..]| && a[1..][i].Id() == id;
          assert a[i + 1].Id() == id;
        }
      }
    }
  }

  /** Appending a line changes the quantity of its id only when the cart had no line for it. */
  lemma {:induction false} QuantityOfAppend(items: seq<CartLine>, line: CartLine, id: int)
    ensures QuantityOf(items + [line], id) ==
      if HasId(items, id) then QuantityOf(items, id) else if line.Id() == id then line.quantity else 0
    decreases |items|
  {
    if items == [] {
      assert items + [line] == [line];
    } else {
      assert (items + [line])[1..] == items[1..] + [line];
      QuantityOfAppend(items[1..], line, id);
      if items[0].Id() != id {
        assert HasId(items[1..], id) <==> HasId(items, id) by {
          if HasId(items, id) {
            var i :| 0 <= i < |items| && items[i].Id() == id;
            assert i != 0 && items[1..][i - 1].Id() == id;
          }
          if HasId(items[1..], id) {
            var i :| 0 <= i < |items[1..]| && items[1..][i].Id() == id;
            assert items[i + 1].Id() == id;
          }
        }
      } else {
        assert HasId(items, id);
      }
    }
  }

  /** `addToCart(product)` raises the quantity for the product's id by exactly 1 and no other. */
  lemma AddQuantity(items: seq<CartLine>, product: Product, id: int)
    ensures QuantityOf(AfterAdd(items, product), id) == QuantityOf(items, id) + (if id == product.id then 1 else 0)
  {
    if HasId(items, product.id) {
      QuantityOfBump(items, AfterAdd(items, product), id, if id == product.id then 1 else 0);
    } else {
      QuantityOfAppend(items, CartLine(product, 1), id);
      if !HasId(items, id) {
        QuantityOfAbsent(items, id);
      }
    }
  }

  /** Adding a product already in the cart bumps that line by 1 and touches nothing else. */
  lemma AddExisting(items: seq<CartLine>, product: Product)
    requires HasId(items, product.id)
    ensures |AfterAdd(items, product)| == |items|
    ensures forall i :: 0 <= i < |items| && items[i].Id() == product.id ==>
      AfterAdd(items, product)[i] == CartLine(items[i].product, items[i].quantity + 1)
    ensures forall i :: 0 <= i < |items| && items[i].Id() != product.id ==>
      AfterAdd(items, product)[i] == items[i]
  {
  }

  /** Adding a new product appends one line with quantity 1 after the earlier lines. */
  lemma AddNew(items: seq<CartLine>, product: Product)
    requires !HasId(items, product.id)
    ensures AfterAdd(items, product) == items + [CartLine(product, 1)]
  {
  }

  /**
   * Removing keeps, in their order, exactly the lines with another id,
   * each as often as it occurs, and removing twice is the same as removing once.
   */
  lemma {:induction false} RemoveSpec(items: seq<CartLine>, id: int)
    ensures forall line :: line in AfterRemove(items, id) <==> line in items && line.Id() != id
    ensures forall line ::
      multiset(AfterRemove(items, id))[line] == if line.Id() != id then multiset(items)[line] else 0
    ensures !HasId(AfterRemove(items, id), id)
    ensures IsSubsequence(AfterRemove(items, id), items)
    ensures AfterRemove(AfterRemove(items, id), id) == AfterRemove(items, id)
    ensures !HasId(items, id) ==> AfterRemove(items, id) == items
  {
    FilterSpec(items, KeepsLine(id));
    FilterIdempotent(items, KeepsLine(id));
    var r := AfterRemove(items, id);
    forall i | 0 <= i < |r| ensures r[i].Id() != id {
      assert r[i] in r;
    }
    if !HasId(items, id) {
      FilterAll(items, KeepsLine(id));
    }
  }

  /** In a valid cart, removing the first line's id removes exactly that line. */
  lemma RemoveHead(items: seq<CartLine>)
    requires ValidLines(items) && items != []
    ensures AfterRemove(items, items[0].Id()) == items[1..]
  {
    var f := KeepsLine(items[0].Id());
    forall i | 0 <= i < |items[1..]| ensures f(items[1..][i]) {
      assert items[1..][i] == items[i + 1];
    }
    FilterAll(items[1..], f);
  }

  /** Updating sets the matching line to `max(quantity, 1)`; on an absent id nothing changes. */
  lemma UpdateSpec(items: seq<CartLine>, id: int, quantity: int)
    ensures |AfterUpdate(items, id, quantity)| == |items|
    ensures forall i :: 0 <= i < |items| && items[i].Id() == id ==>
      AfterUpdate(items, id, quantity)[i].quantity == (if quantity > 1 then quantity else 1) &&
      AfterUpdate(items, id, quantity)[i].product == items[i].product
    ensures forall i :: 0 <= i < |items| && items[i].Id() != id ==>
      AfterUpdate(items, id, quantity)[i] == items[i]
    ensures !HasId(items, id) ==> AfterUpdate(items, id, quantity) == items
  {
  }

  /** A subsequence of a line list with distinct ids has distinct ids. */
  lemma {:induction false} SubsequenceKeepsIdsDistinct(a: seq<CartLine>, b: seq<CartLine>)
    requires IsSubsequence(a, b)
    requires forall i, j :: 0 <= i < j < |b| ==> b[i].Id() != b[j].Id()
    ensures forall i, j :: 0 <= i < j < |a| ==> a[i].Id() != a[j].Id()
    decreases |b|
  {
    if a != [] {
      if a[0] == b[0] && IsSubsequence(a[1..], b[1..]) {
        SubsequenceKeepsIdsDistinct(a[1..], b[1..]);
        SubsequenceElements(a[1..], b[1..]);
        forall j | 0 < j < |a| ensures a[0].Id() != a[j].Id() {
          assert a[1..][j - 1] in b[1..];
          var k :| 0 <= k < |b[1..]| && b[1..][k] == a[j];
          assert b[k + 1] == a[j];
        }
      } else {
        SubsequenceKeepsIdsDistinct(a, b[1..]);
      }
    }
  }

  /** Adding keeps the store's invariant. */
  lemma AddKeepsValid(items: seq<CartLine>, product: Product)
    requires ValidLines(items)
    ensures ValidLines(AfterAdd(items, product))
  {
  }

  /** Removing keeps the store's invariant. */
  lemma RemoveKeepsValid(items: seq<CartLine>, id: int)
    requires ValidLines(items)
    ensures ValidLines(AfterRemove(items, id))
  {
    RemoveSpec(items, id);
    SubsequenceKeepsIdsDistinct(AfterRemove(items, id), items);
  }

  /** Updating keeps the store's invariant. */
  lemma UpdateKeepsValid(items: seq<CartLine>, id: int, quantity: int)
    requires ValidLines(items)
    ensures ValidLines(AfterUpdate(items, id, quantity))
  {
  }

  /** The cart state: the `cartItems` lines and the requests sent to the cart server. */
  class Cart {
    var items: seq<CartLine>
    var requests: seq<CartRequest>

    ghost predicate Valid()
      reads this
    {
      ValidLines(items)
    }

    /** `useState([])`. */
    constructor ()
      ensures Valid() && items == [] && requests == []
    {
      items := [];
      requests := [];
    }

    /** `addToCart(product)`: increment an existing line or append a new one, then `PUT` quantity 1. */
    method AddToCart(product: Product)
      requires Valid()
      modifies this
      ensures Valid()
      ensures items == AfterAdd(old(items), product)
      ensures requests == old(requests) + [CartRequest(product.id, 1)]
    {
      AddKeepsValid(items, product);
      items := AfterAdd(items, product);
      requests := requests + [CartRequest(product.id, 1)];
    }

    /** `removeFromCart(id)`: drop every line with that id, then `PUT` quantity 0. */
    method RemoveFromCart(id: int)
      requires Valid()
      modifies this
      ensures Valid()
      ensures items == AfterRemove(old(items), id)
      ensures requests == old(requests) + [CartRequest(id, 0)]
    {
      RemoveKeepsValid(items, id);
      items := AfterRemove(items, id);
      requests := requests + [CartRequest(id, 0)];
    }

    /** `updateQuantity(id, quantity)`: set the line to `max(quantity, 1)` and `PUT` that value. */
    method UpdateQuantity(id: int, quantity: int)
      requires Valid()
      modifies this
      ensures Valid()
      ensures items == AfterUpdate(old(items), id, quantity)
      ensures requests == old(requests) + [CartRequest(id, AtLeastOne(quantity))]
    {
      UpdateKeepsValid(items, id, quantity);
      items := AfterUpdate(items, id, quantity);
      requests := requests + [CartRequest(id, AtLeastOne(quantity))];
    }
  }
}
