/** The storefront cart (src/components/RestaurantPage.tsx): a map from menu
    id to quantity, changed one unit at a time by the page's two handlers. */
module ShoppingCart {
  import opened Types
  import opened Seqs

  type Quantities = map<string, nat>

  /** The cart invariant: every stored quantity is at least 1. */
  ghost predicate AllPositive(q: Quantities) {
    forall id :: id in q ==> q[id] >= 1
  }

  /** `(cart[id] || 0)`: the quantity of `id`, 0 when it has no entry. */
  function QuantityOf(q: Quantities, id: string): nat {
    if id in q then q[id] else 0
  }

  /** The cart after `addToCart(id)`: an absent item is set to 1, a present
      one goes up by 1, and no other entry changes. */
  function Added(q: Quantities, id: string): (r: Quantities)
    ensures r.Keys == q.Keys + {id}
    ensures r[id] == QuantityOf(q, id) + 1
    ensures forall k :: k in q && k != id ==> r[k] == q[k]
  {
    q[id := QuantityOf(q, id) + 1]
  }

  /** The cart after `removeFromCart(id)`: a quantity above 1 goes down by 1,
      a quantity of 1 (or an absent item) leaves no entry, and no other entry
      changes. */
  function Removed(q: Quantities, id: string): (r: Quantities)
    ensures id in q && q[id] > 1 ==> r.Keys == q.Keys && r[id] == q[id] - 1
    ensures !(id in q && q[id] > 1) ==> r.Keys == q.Keys - {id}
    ensures forall k :: k in q && k != id ==> k in r && r[k] == q[k]
  {
    if id in q && q[id] > 1 then q[id := q[id] - 1] else q - {id}
  }

  /** Both handlers keep every stored quantity at least 1. */
  lemma UpdatesKeepPositive(q: Quantities, id: string)
    requires AllPositive(q)
    ensures AllPositive(Added(q, id)) && AllPositive(Removed(q, id))
  {
  }

  /** Removing an item that is not in the cart changes nothing. */
  lemma RemoveAbsentIsNoOp(q: Quantities, id: string)
    requires id !in q
    ensures Removed(q, id) == q
  {
  }

  /** Adding an item and then removing it gives back the cart as it was. */
  lemma {:induction false} RemoveUndoesAdd(q: Quantities, id: string)
    requires AllPositive(q)
    ensures Removed(Added(q, id), id) == q
  {
    var r := Removed(Added(q, id), id);
    if id in q {
      assert r.Keys == q.Keys;
      assert r[id] == q[id];
    } else {
      assert r.Keys == q.Keys;
    }
    assert forall k :: k in q ==> r[k] == q[k];
  }

  /** The cart state of the restaurant page. */
  class Cart {
    var quantities: Quantities

    ghost predicate Valid()
      reads this
    {
      AllPositive(quantities)
    }

    constructor ()
      ensures Valid() && quantities == map[]
    {
      quantities := map[];
    }

    /** `addToCart`. */
    method AddToCart(id: string)
      requires Valid()
      modifies this
      ensures Valid()
      ensures quantities == Added(old(quantities), id)
    {
      var current := if id in quantities then quantities[id] else 0;
      quantities := quantities[id := current + 1];
    }

    /** `removeFromCart`: decrement in place on a copy, or delete the entry. */
    method RemoveFromCart(id: string)
      requires Valid()
      modifies this
      ensures Valid()
      ensures quantities == Removed(old(quantities), id)
    {
      var next := quantities;
      if id in next && next[id] > 1 {
        next := next[id := next[id] - 1];
      } else {
        next := next - {id};
      }
      quantities := next;
    }
  }

  /** `cartItems`: the menus whose id has a (non-zero) cart entry. */
  function CartItems(menus: seq<Menu>, q: Quantities): (r: seq<Menu>)
    ensures forall m :: m in r <==> m in menus && QuantityOf(q, m.id) > 0
  {
    Filter(menus, (m: Menu) => QuantityOf(q, m.id) > 0)
  }

  /** Under the cart invariant, `cartItems` is exactly the menus that have a
      cart entry, in menu order: splitting the menu list splits the result. */
  lemma CartItemsInMenuOrder(before: seq<Menu>, after: seq<Menu>, q: Quantities)
    requires AllPositive(q)
    ensures CartItems(before + after, q) == CartItems(before, q) + CartItems(after, q)
    ensures forall m :: m in CartItems(before + after, q) <==> m in before + after && m.id in q
  {
    FilterAppend(before, after, (m: Menu) => QuantityOf(q, m.id) > 0);
  }
}
