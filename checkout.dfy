/** The checkout page (src/app/checkout/page.tsx): it reads the hand-off the
    cart panel left in storage, shows an order summary, and on submit opens a
    WhatsApp chat with the restaurant carrying the order as text. */
module Checkout {
  import opened Wrappers
  import opened Text
  import opened Types
  import opened Seqs
  import opened ShoppingCart
  import opened CartPanel

  /** What the page holds once storage has been read. */
  datatype Loaded = Loaded(cart: Quantities, items: seq<Menu>, restaurantName: string, restaurantPhone: string)

  datatype LoadOutcome = Redirect(path: string) | Show(page: Loaded)

  /** The mount effect as written. When the cart or the items are missing it
      redirects to `/` followed by the `restaurantName` state, which at mount
      is still its initial empty value; when either fails to parse (the
      `readCart`/`readItems` parameters give `None`) it redirects to `/menu`. */
  function LoadAsWritten(st: Storage, readCart: string -> Option<Quantities>,
                         readItems: string -> Option<seq<Menu>>): (r: LoadOutcome)
    ensures (StoredValue(st, "cart").None? || StoredValue(st, "items").None?) ==> r == Redirect("/")
    ensures (StoredValue(st, "cart").Some? && StoredValue(st, "items").Some? &&
             (readCart(StoredValue(st, "cart").value).None? || readItems(StoredValue(st, "items").value).None?)) ==>
      r == Redirect("/menu")
    ensures r.Show? ==>
      readCart(StoredValue(st, "cart").value) == Some(r.page.cart) &&
      readItems(StoredValue(st, "items").value) == Some(r.page.items)
  {
    var initialRestaurantName := "";
    assert "/" + initialRestaurantName == "/";
    var c := StoredValue(st, "cart");
    var i := StoredValue(st, "items");
    if c.None? || i.None? then Redirect("/" + initialRestaurantName)
    else match (readCart(c.value), readItems(i.value))
      case (Some(q), Some(items)) =>
        Show(Loaded(q, items, StoredValue(st, "restaurantName").GetOr(""),
                    StoredValue(st, "restaurantPhone").GetOr("")))
      case _ => Redirect("/menu")
  }

  /** Without a stored cart the page as written always goes to the home page,
      even when storage names the restaurant the order came from. */
  lemma RedirectIgnoresStoredRestaurant()
    ensures var st := map["restaurantName" := "pizza-palace"];
      forall readCart: string -> Option<Quantities>, readItems: string -> Option<seq<Menu>> ::
        LoadAsWritten(st, readCart, readItems) == Redirect("/")
  {
  }

  /** The mount effect with the redirect going back to the stored
      restaurant's page; otherwise the same as `LoadAsWritten`. */
  function Load(st: Storage, readCart: string -> Option<Quantities>,
                readItems: string -> Option<seq<Menu>>): (r: LoadOutcome)
    ensures (StoredValue(st, "cart").None? || StoredValue(st, "items").None?) ==>
      r == Redirect("/" + StoredValue(st, "restaurantName").GetOr(""))
    ensures r.Show? ==> LoadAsWritten(st, readCart, readItems) == r
    ensures StoredValue(st, "cart").Some? && StoredValue(st, "items").Some? ==>
      r == LoadAsWritten(st, readCart, readItems)
  {
    var c := StoredValue(st, "cart");
    var i := StoredValue(st, "items");
    if c.None? || i.None? then Redirect("/" + StoredValue(st, "restaurantName").GetOr(""))
    else LoadAsWritten(st, readCart, readItems)
  }

  /** What the cart panel hands over is what the checkout page shows, as long
      as reading the JSON back gives what was written. */
  lemma HandOffArrives(st: Storage, items: seq<Menu>, q: Quantities, name: string, phone: string,
                       showCart: Quantities -> string, showItems: seq<Menu> -> string,
                       readCart: string -> Option<Quantities>, readItems: string -> Option<seq<Menu>>)
    requires showCart(q) != "" && showItems(items) != ""
    requires readCart(showCart(q)) == Some(q) && readItems(showItems(items)) == Some(items)
    ensures var (st', path) := HandleCheckout(st, items, q, name, phone, showCart, showItems);
      path == "/checkout" && Load(st', readCart, readItems) == Show(Loaded(q, items, name, phone))
  {
  }

  /** `totalPrice`: price times `cart[id] || 0`, summed over all items. */
  function OrderTotal(items: seq<Menu>, cart: Quantities): int {
    if |items| == 0 then 0
    else items[0].price * QuantityOf(cart, items[0].id) + OrderTotal(items[1..], cart)
  }

  /** An order with nothing in the cart totals 0, and with no negative price
      the total is never negative. */
  lemma {:induction false} OrderTotalBounds(items: seq<Menu>, cart: Quantities)
    ensures (forall i :: 0 <= i < |items| ==> QuantityOf(cart, items[i].id) == 0) ==> OrderTotal(items, cart) == 0
    ensures (forall i :: 0 <= i < |items| ==> items[i].price >= 0) ==> OrderTotal(items, cart) >= 0
  {
    if |items| > 0 {
      OrderTotalBounds(items[1..], cart);
      assert forall i :: 0 <= i < |items| - 1 ==> items[1..][i] == items[i + 1];
    }
  }

  /** When every item has a cart entry, as for the panel's `cartItems`, the
      checkout total is the panel's total. */
  lemma {:induction false} OrderTotalMatchesPanel(items: seq<Menu>, cart: Quantities)
    requires AllListed(items, cart)
    ensures OrderTotal(items, cart) == CartPanel.TotalPrice(items, cart)
  {
    if |items| > 0 {
      OrderTotalMatchesPanel(items[1..], cart);
    }
  }

  /** Items without a positive quantity add nothing: the total over the
      ordered items (`cart[id] > 0`, the same filter as the panel's
      `cartItems`) is the total over all items. */
  lemma {:induction false} OrderTotalOfOrderedItems(items: seq<Menu>, cart: Quantities)
    ensures OrderTotal(CartItems(items, cart), cart) == OrderTotal(items, cart)
  {
    if |items| > 0 {
      OrderTotalOfOrderedItems(items[1..], cart);
      var p := (m: Menu) => QuantityOf(cart, m.id) > 0;
      assert CartItems(items, cart) == Filter(items, p);
      assert CartItems(items[1..], cart) == Filter(items[1..], p);
      if QuantityOf(cart, items[0].id) > 0 {
        assert CartItems(items, cart) == [items[0]] + CartItems(items[1..], cart);
        assert CartItems(items, cart)[1..] == CartItems(items[1..], cart);
      } else {
        assert CartItems(items, cart) == CartItems(items[1..], cart);
      }
    }
  }

  /** One line of the order: `name x<quantity> - $<price * quantity>`. */
  function OrderLine(item: Menu, quantity: nat): string {
    item.name + " x" + DecimalString(quantity) + " - $" + Fixed2(item.price * quantity)
  }

  function OrderLines(cart: Quantities, ordered: seq<Menu>): (r: seq<string>)
    ensures |r| == |ordered|
    ensures forall i :: 0 <= i < |ordered| ==> r[i] == OrderLine(ordered[i], QuantityOf(cart, ordered[i].id))
  {
    seq(|ordered|, i requires 0 <= i < |ordered| => OrderLine(ordered[i], QuantityOf(cart, ordered[i].id)))
  }

  /** `orderDetails`: the lines of the ordered items, joined by line breaks. */
  function OrderDetails(items: seq<Menu>, cart: Quantities): (r: string)
    ensures r == "" <==> |CartItems(items, cart)| == 0
  {
    var lines := OrderLines(cart, CartItems(items, cart));
    assert forall i :: 0 <= i < |lines| ==> |lines[i]| > 0;
    JoinOfNonEmpty(lines, "\n");
    Join(OrderLines(cart, CartItems(items, cart)), "\n")
  }

  /** When no item name contains a line break, the details hold one line per
      ordered item, in item order, and nothing else. */
  lemma OrderDetailsReadBack(items: seq<Menu>, cart: Quantities)
    requires forall m :: m in items ==> '\n' !in m.name
    requires |CartItems(items, cart)| > 0
    ensures Split(OrderDetails(items, cart), '\n') == OrderLines(cart, CartItems(items, cart))
  {
    var ordered := CartItems(items, cart);
    var lines := OrderLines(cart, ordered);
    forall i | 0 <= i < |lines| ensures '\n' !in lines[i] {
      var m := ordered[i];
      assert m in ordered;
      NumbersHaveNoLineBreak(QuantityOf(cart, m.id), m.price * QuantityOf(cart, m.id));
    }
    SplitJoin(lines, '\n');
  }

  /** The customer's form. */
  datatype CustomerForm = CustomerForm(name: string, address: string, phone: string, notes: string)

  /** The fixed part of the message from "New order for" down to the line
      "Additional Notes:" and its line break. */
  function MessageHead(page: Loaded, form: CustomerForm): string {
    MessageOpening(page, form) + "\n\nAdditional Notes:\n"
  }

  function MessageOpening(page: Loaded, form: CustomerForm): string {
    "New order for " + MessageDetails(page, form)
  }

  function MessageDetails(page: Loaded, form: CustomerForm): string {
    page.restaurantName + ":\n\nCustomer Details:\nName: " + form.name +
    "\nAddress: " + form.address + "\nPhone: " + form.phone + "\n\nOrder:\n" +
    OrderDetails(page.items, page.cart) + "\n\nTotal: $" + Fixed2(OrderTotal(page.items, page.cart))
  }

  /** The message template: a leading line break, the head, the notes and a
      final line break with the closing line's indentation; then `trim`. */
  function Message(page: Loaded, form: CustomerForm): string {
    Trim("\n" + MessageHead(page, form) + form.notes + "\n    ")
  }

  /** `trim` takes off exactly the template's leading line break and trailing
      indentation: the message is the head followed by the notes without
      their trailing whitespace when the notes hold visible text, and the head
      without its last line break when the notes are blank. */
  lemma MessageText(page: Loaded, form: CustomerForm)
    ensures HasVisible(form.notes) ==>
      Message(page, form) == MessageHead(page, form) + TrimEnd(form.notes)
    ensures (forall i :: 0 <= i < |form.notes| ==> IsWhitespace(form.notes[i])) ==>
      var head := MessageHead(page, form);
      Message(page, form) == head[..|head| - 1]
  {
    MessageHeadShape(page, form);
    var head := MessageHead(page, form);
    if HasVisible(form.notes) {
      TrimFramedVisible('\n', head, form.notes, "\n    ");
    }
    if forall i :: 0 <= i < |form.notes| ==> IsWhitespace(form.notes[i]) {
      TrimFramedBlank('\n', head, form.notes, "\n    ");
    }
  }

  /** The head starts with "N" and ends with ":" and a line break. */
  lemma MessageHeadShape(page: Loaded, form: CustomerForm)
    ensures var head := MessageHead(page, form);
      |head| >= 2 && head[0] == 'N' && head[|head| - 2] == ':' && head[|head| - 1] == '\n'
  {
    var head := MessageHead(page, form);
    var n := |MessageOpening(page, form)|;
    assert head[0] == MessageOpening(page, form)[0];
    assert head[n..] == "\n\nAdditional Notes:\n";
  }

  datatype SubmitOutcome = Alert(message: string) | OpenChat(url: string)

  /** `handleSubmit`: an empty name, address or phone number gives an alert
      and changes nothing; otherwise the WhatsApp link carries the encoded
      message (`encode` stands for `encodeURIComponent`) and the cart and
      items are removed from storage. */
  function HandleSubmit(page: Loaded, form: CustomerForm, st: Storage, encode: string -> string): (r: (SubmitOutcome, Storage))
    ensures r.0.Alert? <==> form.name == "" || form.address == "" || form.phone == ""
    ensures r.0.Alert? ==> r.0.message == "Please fill in all required fields" && r.1 == st
    ensures r.0.OpenChat? ==>
      r.0.url == "https://wa.me/" + page.restaurantPhone + "?text=" + encode(Message(page, form)) &&
      r.1 == st - {"cart", "items"}
  {
    if form.name == "" || form.address == "" || form.phone == "" then
      (Alert("Please fill in all required fields"), st)
    else
      (OpenChat("https://wa.me/" + page.restaurantPhone + "?text=" + encode(Message(page, form))),
       st - {"cart", "items"})
  }

  /** After an order is sent the hand-off is gone, so coming back to the
      checkout page redirects: as written to the home page `/`, and with the
      corrected redirect back to the restaurant's page, whose name is kept. */
  lemma ReturnAfterOrder(page: Loaded, form: CustomerForm, st: Storage, encode: string -> string,
                         readCart: string -> Option<Quantities>, readItems: string -> Option<seq<Menu>>)
    requires HandleSubmit(page, form, st, encode).0.OpenChat?
    ensures var st' := HandleSubmit(page, form, st, encode).1;
      LoadAsWritten(st', readCart, readItems) == Redirect("/")
    ensures var st' := HandleSubmit(page, form, st, encode).1;
      Load(st', readCart, readItems) == Redirect("/" + StoredValue(st, "restaurantName").GetOr(""))
  {
    var st' := st - {"cart", "items"};
    assert StoredValue(st', "cart").None?;
    assert StoredValue(st', "restaurantName") == StoredValue(st, "restaurantName");
  }

  /** One row of the order summary. */
  datatype SummaryRow = SummaryRow(name: string, quantity: nat, amount: string)

  datatype Summary = Summary(rows: seq<SummaryRow>, total: string)

  /** The rendered page: nothing when there are no items, otherwise one row
      per item with `cart[id] > 0` and the total. */
  function Render(page: Loaded): (r: Option<Summary>)
    ensures r.None? <==> |page.items| == 0
    ensures r.Some? ==> r.value.total == Fixed2(OrderTotal(page.items, page.cart))
    ensures r.Some? ==> |r.value.rows| == |CartItems(page.items, page.cart)|
  {
    if |page.items| == 0 then None
    else
      var ordered := CartItems(page.items, page.cart);
      Some(Summary(
        seq(|ordered|, i requires 0 <= i < |ordered| =>
          var q := QuantityOf(page.cart, ordered[i].id);
          SummaryRow(ordered[i].name, q, Fixed2(ordered[i].price * q))),
        Fixed2(OrderTotal(page.items, page.cart))))
  }

  /** The summary on screen and the message sent agree: row `i` of the summary
      reads as line `i` of the order details. */
  lemma SummaryMatchesMessage(page: Loaded, i: nat)
    requires |page.items| > 0 && i < |CartItems(page.items, page.cart)|
    ensures var row := Render(page).value.rows[i];
      OrderLines(page.cart, CartItems(page.items, page.cart))[i] ==
        row.name + " x" + DecimalString(row.quantity) + " - $" + row.amount
  {
  }
}
