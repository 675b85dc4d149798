/** The floating cart panel (src/components/cart.tsx): the item count on the
    badge, the total price of the listed items, the empty-cart message and
    one row of -/+ buttons per listed item. */
module CartPanel {
  import opened Types
  import opened ShoppingCart

  /** Some key of a non-empty cart. */
  ghost function Pick(keys: set<string>): (k: string)
    requires keys != {}
    ensures k in keys
  {
    var k :| k in keys; k
  }

  /** `Object.values(cart).reduce((sum, q) => sum + q, 0)`. */
  ghost function TotalItems(q: Quantities): nat
    decreases |q|
  {
    if q == map[] then 0
    else
      var k := Pick(q.Keys);
      assert |(q - {k}).Keys| == |q.Keys| - 1;
      q[k] + TotalItems(q - {k})
  }

  /** The sum does not depend on which entry is taken first. */
  lemma {:induction false} TotalItemsWithout(q: Quantities, k: string)
    requires k in q
    ensures TotalItems(q) == q[k] + TotalItems(q - {k})
    decreases |q|
  {
    var j := Pick(q.Keys);
    if j != k {
      assert |(q - {j}).Keys| == |q.Keys| - 1;
      assert |(q - {k}).Keys| == |q.Keys| - 1;
      TotalItemsWithout(q - {j}, k);
      TotalItemsWithout(q - {k}, j);
      assert q - {j} - {k} == q - {k} - {j};
    }
  }

  /** Each `+` adds one to the count. */
  lemma TotalItemsAfterAdd(q: Quantities, id: string)
    ensures TotalItems(Added(q, id)) == TotalItems(q) + 1
  {
    var a := Added(q, id);
    TotalItemsWithout(a, id);
    assert a - {id} == q - {id};
    if id in q {
      TotalItemsWithout(q, id);
    } else {
      assert q - {id} == q;
    }
  }

  /** Each `-` on an item in the cart takes one away; on any other item it
      changes nothing. */
  lemma TotalItemsAfterRemove(q: Quantities, id: string)
    requires AllPositive(q)
    ensures id in q ==> TotalItems(Removed(q, id)) == TotalItems(q) - 1
    ensures id !in q ==> TotalItems(Removed(q, id)) == TotalItems(q)
  {
    if id in q {
      TotalItemsWithout(q, id);
      var r := Removed(q, id);
      if q[id] > 1 {
        TotalItemsWithout(r, id);
        assert r - {id} == q - {id};
      } else {
        assert r == q - {id};
      }
    } else {
      RemoveAbsentIsNoOp(q, id);
    }
  }

  /** `totalItems > 0`: the badge is shown exactly when the cart has an
      entry. */
  lemma BadgeShownIffCartNotEmpty(q: Quantities)
    requires AllPositive(q)
    ensures TotalItems(q) > 0 <==> q != map[]
  {
    if q != map[] {
      TotalItemsWithout(q, Pick(q.Keys));
    }
  }

  /** Every listed item has a cart entry: what the panel's total needs. */
  predicate AllListed(items: seq<Menu>, q: Quantities) {
    forall i :: 0 <= i < |items| ==> items[i].id in q
  }

  /** `totalPrice`: price times cart quantity summed over the listed items,
      0 for an empty list. There is no fallback for an item without an entry,
      so it is defined only when every item has one. */
  function TotalPrice(items: seq<Menu>, q: Quantities): int
    requires AllListed(items, q)
  {
    if |items| == 0 then 0
    else items[0].price * q[items[0].id] + TotalPrice(items[1..], q)
  }

  /** With no negative price the total is never negative. */
  lemma {:induction false} TotalPriceNonNegative(items: seq<Menu>, q: Quantities)
    requires AllListed(items, q)
    requires forall i :: 0 <= i < |items| ==> items[i].price >= 0
    ensures TotalPrice(items, q) >= 0
  {
    if |items| > 0 {
      assert forall i :: 0 <= i < |items| - 1 ==> items[1..][i] == items[i + 1];
      TotalPriceNonNegative(items[1..], q);
    }
  }

  /** The total of a concatenation is the sum of the totals. */
  lemma {:induction false} TotalPriceAppend(a: seq<Menu>, b: seq<Menu>, q: Quantities)
    requires AllListed(a, q) && AllListed(b, q)
    ensures AllListed(a + b, q)
    ensures TotalPrice(a + b, q) == TotalPrice(a, q) + TotalPrice(b, q)
  {
    if |a| > 0 {
      assert (a + b)[1..] == a[1..] + b;
      TotalPriceAppend(a[1..], b, q);
    } else {
      assert a + b == b;
    }
  }

  /** The list the page passes in, `cartItems`, always satisfies the panel's
      requirement, so the total is a number. */
  lemma CartItemsAreListed(menus: seq<Menu>, q: Quantities)
    ensures AllListed(CartItems(menus, q), q)
  {
    var items := CartItems(menus, q);
    forall i | 0 <= i < |items| ensures items[i].id in q {
      assert items[i] in items;
    }
  }

  /** "Your cart is empty" is shown exactly when the item list is empty; for
      the page's `cartItems` that is when no menu on the page is in the cart. */
  predicate ShowsEmptyMessage(items: seq<Menu>) {
    |items| == 0
  }

  lemma EmptyMessageForCartItems(menus: seq<Menu>, q: Quantities)
    requires AllPositive(q)
    ensures ShowsEmptyMessage(CartItems(menus, q)) <==> forall m :: m in menus ==> m.id !in q
  {
    var items := CartItems(menus, q);
    if |items| > 0 {
      assert items[0] in items;
    }
  }

  /** What a button of a row does. */
  datatype CartAction = Remove(id: string) | Add(id: string)

  /** One row of the panel: the item's name, the quantity shown, and the
      actions of its `-` and `+` buttons. */
  datatype CartRow = CartRow(title: string, quantity: nat, minus: CartAction, plus: CartAction)

  function Rows(items: seq<Menu>, q: Quantities): (rows: seq<CartRow>)
    requires AllListed(items, q)
    ensures |rows| == |items|
    ensures forall i :: 0 <= i < |items| ==>
      rows[i].title == items[i].name && rows[i].quantity == q[items[i].id] &&
      rows[i].minus == Remove(items[i].id) && rows[i].plus == Add(items[i].id)
  {
    seq(|items|, i requires 0 <= i < |items| =>
      CartRow(items[i].name, q[items[i].id], Remove(items[i].id), Add(items[i].id)))
  }

  function Apply(q: Quantities, a: CartAction): Quantities {
    match a
    case Remove(id) => Removed(q, id)
    case Add(id) => Added(q, id)
  }

  /** Pressing a row's `+` and then its `-` leaves the cart as it was, and
      the `+` raises that row's shown quantity by one. */
  lemma RowButtonsUndo(items: seq<Menu>, q: Quantities, i: nat)
    requires AllPositive(q) && AllListed(items, q) && i < |items|
    ensures var row := Rows(items, q)[i];
      Apply(Apply(q, row.plus), row.minus) == q &&
      AllListed(items, Apply(q, row.plus)) &&
      Rows(items, Apply(q, row.plus))[i].quantity == row.quantity + 1
  {
    RemoveUndoesAdd(q, items[i].id);
  }

  /** `handleCheckout`: the cart, the listed items and the restaurant's name
      and phone number are written to storage under four keys (the two
      collections as JSON, here through the `showCart`/`showItems`
      parameters), and the browser moves to `/checkout`. Other keys are
      kept. */
  function HandleCheckout(st: Storage, items: seq<Menu>, q: Quantities,
                          restaurantName: string, restaurantPhone: string,
                          showCart: Quantities -> string, showItems: seq<Menu> -> string): (r: (Storage, string))
    ensures r.1 == "/checkout"
    ensures r.0.Keys == st.Keys + {"cart", "items", "restaurantName", "restaurantPhone"}
    ensures r.0["cart"] == showCart(q) && r.0["items"] == showItems(items)
    ensures r.0["restaurantName"] == restaurantName && r.0["restaurantPhone"] == restaurantPhone
    ensures forall k :: k in st && k !in {"cart", "items", "restaurantName", "restaurantPhone"} ==> r.0[k] == st[k]
  {
    (st["cart" := showCart(q)]["items" := showItems(items)]
       ["restaurantName" := restaurantName]["restaurantPhone" := restaurantPhone],
     "/checkout")
  }
}
