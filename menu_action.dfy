/** The menu requests (src/action/menu/index.ts): the query of the
    per-user listing and the multipart forms of create and update. */
module MenuAction {
  import opened Wrappers
  import opened Text
  import opened Types
  import opened Seqs

  /** `number.toString()` for a price held in cents. */
  function PriceText(price: Amount): (s: string)
    ensures price.NaN? <==> s == "NaN"
  {
    match price
    case NaN => "NaN"
    case Cents(c) =>
      AmountTextIsNumeral(c);
      assert AmountText(c) != "NaN" by {
        if |AmountText(c)| == 3 {
          assert !IsDigit(AmountText(c)[0]) ==> AmountText(c)[0] in "-.";
        }
      }
      AmountText(c)
  }

  /** The listing request: the path carries the session's user id (the
      text "undefined" when there is none) and the query gets the defaults. */
  function UserMenusRequest(userId: Option<string>, params: ListQuery): (r: (string, ListQuery))
    ensures r.0 == "menu/user/" + userId.GetOr("undefined")
    ensures r.1 == RequestQuery(params)
  {
    ("menu/user/" + userId.GetOr("undefined"), RequestQuery(params))
  }

  /** The body of the listing reply. */
  datatype MenuResponse = MenuResponse(data: seq<Menu>, pagination: Pagination)

  datatype MenuPageResult = MenuPageResult(menuItems: seq<Menu>, pagination: Pagination)

  /** `fetchMenuItemsByUser` after the request: the reply's items and
      pagination unchanged, or the request's failure passed on. */
  function FetchMenuItemsByUser(reply: Result<MenuResponse>): (r: Result<MenuPageResult>)
    ensures r.Success? <==> reply.Success?
    ensures r.Success? ==> r.value.menuItems == reply.value.data && r.value.pagination == reply.value.pagination
    ensures r.Failure? ==> r.error == reply.error
  {
    match reply
    case Success(body) => Success(MenuPageResult(body.data, body.pagination))
    case Failure(e) => Failure(e)
  }

  /** The data of a new menu item. */
  datatype NewMenuData = NewMenuData(name: string, price: Amount, category: string, measure: string, image: FileRef)

  /** `createMenuItem`: the form posted to `menu`, five entries in the order
      name, price (as text), measure, file, category. */
  method CreateMenuItemForm(data: NewMenuData) returns (formData: Form)
    ensures Keys(formData) == ["name", "price", "measure", "file", "category"]
    ensures formData[0].value == Text(data.name) && formData[1].value == Text(PriceText(data.price))
    ensures formData[2].value == Text(data.measure) && formData[3].value == Blob(data.image)
    ensures formData[4].value == Text(data.category)
  {
    formData := [];
    formData := formData + [FormEntry("name", Text(data.name))];
    formData := formData + [FormEntry("price", Text(PriceText(data.price)))];
    formData := formData + [FormEntry("measure", Text(data.measure))];
    formData := formData + [FormEntry("file", Blob(data.image))];
    formData := formData + [FormEntry("category", Text(data.category))];
  }

  /** The fields of an update; absent fields are `None`. */
  datatype MenuUpdate = MenuUpdate(
    name: Option<string>,
    price: Option<Amount>,
    description: Option<string>,
    measure: Option<string>,
    image: Option<FileRef>)

  /** The fields an update may send, in the order they are appended. */
  const UpdateKeys: seq<string> := ["name", "price", "description", "measure", "file"]

  /** Whether the update sends `key`: the text fields when non-empty, the
      price whenever it is given (also 0 and `NaN`), the file when given. */
  predicate Sends(data: MenuUpdate, key: string) {
    if key == "name" then IsPresent(data.name)
    else if key == "price" then data.price.Some?
    else if key == "description" then IsPresent(data.description)
    else if key == "measure" then IsPresent(data.measure)
    else if key == "file" then data.image.Some?
    else false
  }

  /** The value sent under `key`. */
  function SentValue(data: MenuUpdate, key: string): FormValue
    requires Sends(data, key)
  {
    if key == "name" then Text(data.name.value)
    else if key == "price" then Text(PriceText(data.price.value))
    else if key == "description" then Text(data.description.value)
    else if key == "measure" then Text(data.measure.value)
    else Blob(data.image.value)
  }

  /** The entries an update sends for the fields `keys`, in that order. */
  function UpdateEntries(data: MenuUpdate, keys: seq<string>): Form {
    if |keys| == 0 then []
    else
      (if Sends(data, keys[0]) then [FormEntry(keys[0], SentValue(data, keys[0]))] else []) +
      UpdateEntries(data, keys[1..])
  }

  /** `updateMenuItem`: the form put to `menu/<id>`, built by five
      conditional appends. */
  method UpdateMenuItemForm(data: MenuUpdate) returns (formData: Form)
    ensures formData == UpdateEntries(data, UpdateKeys)
  {
    formData := [];
    assert UpdateKeys[0] == "name";
    UpdateEntriesStep(data, UpdateKeys, 0);
    if IsPresent(data.name) {
      formData := formData + [FormEntry("name", Text(data.name.value))];
    }
    assert formData == UpdateEntries(data, UpdateKeys[..1]);
    assert UpdateKeys[1] == "price";
    UpdateEntriesStep(data, UpdateKeys, 1);
    if data.price.Some? {
      formData := formData + [FormEntry("price", Text(PriceText(data.price.value)))];
    }
    assert formData == UpdateEntries(data, UpdateKeys[..2]);
    assert UpdateKeys[2] == "description";
    UpdateEntriesStep(data, UpdateKeys, 2);
    if IsPresent(data.description) {
      formData := formData + [FormEntry("description", Text(data.description.value))];
    }
    assert formData == UpdateEntries(data, UpdateKeys[..3]);
    assert UpdateKeys[3] == "measure";
    UpdateEntriesStep(data, UpdateKeys, 3);
    if IsPresent(data.measure) {
      formData := formData + [FormEntry("measure", Text(data.measure.value))];
    }
    assert formData == UpdateEntries(data, UpdateKeys[..4]);
    assert UpdateKeys[4] == "file";
    UpdateEntriesStep(data, UpdateKeys, 4);
    if data.image.Some? {
      formData := formData + [FormEntry("file", Blob(data.image.value))];
    }
    assert formData == UpdateEntries(data, UpdateKeys[..5]);
    assert UpdateKeys[..5] == UpdateKeys;
  }

  /** Adding one more key adds its entry, if it is sent, at the end. */
  lemma {:induction false} UpdateEntriesStep(data: MenuUpdate, keys: seq<string>, n: nat)
    requires n < |keys|
    ensures UpdateEntries(data, keys[..n + 1]) == UpdateEntries(data, keys[..n]) +
      (if Sends(data, keys[n]) then [FormEntry(keys[n], SentValue(data, keys[n]))] else [])
  {
    if n > 0 {
      UpdateEntriesStep(data, keys[1..], n - 1);
      assert keys[..n + 1][1..] == keys[1..][..n];
      assert keys[..n][1..] == keys[1..][..n - 1];
    }
  }

  /** Every entry of an update carries a field that is sent, with its value,
      and every field that is sent has an entry. */
  lemma {:induction false} UpdateEntriesSendExactly(data: MenuUpdate, keys: seq<string>)
    ensures forall e :: e in UpdateEntries(data, keys) ==>
      e.key in keys && Sends(data, e.key) && e.value == SentValue(data, e.key)
    ensures forall k :: k in keys && Sends(data, k) ==> k in Keys(UpdateEntries(data, keys))
  {
    if |keys| > 0 {
      UpdateEntriesSendExactly(data, keys[1..]);
      var head := if Sends(data, keys[0]) then [FormEntry(keys[0], SentValue(data, keys[0]))] else [];
      var rest := UpdateEntries(data, keys[1..]);
      assert Keys(head + rest) == Keys(head) + Keys(rest);
      forall k | k in keys && Sends(data, k) ensures k in Keys(UpdateEntries(data, keys)) {
        if k == keys[0] {
          assert Keys(head) == [k];
        } else {
          assert k in keys[1..];
        }
      }
    }
  }

  /** `updateMenuItem` sends exactly the fields `Sends` names: a text field
      when it is non-empty, the price whenever it is given (also 0), the file
      when an image is given, and never a category. */
  lemma UpdateMenuItemSends(data: MenuUpdate)
    ensures forall k :: k in Keys(UpdateEntries(data, UpdateKeys)) <==> k in UpdateKeys && Sends(data, k)
    ensures "category" !in Keys(UpdateEntries(data, UpdateKeys))
    ensures forall e :: e in UpdateEntries(data, UpdateKeys) ==> e.value == SentValue(data, e.key)
  {
    var keys := UpdateKeys;
    var form := UpdateEntries(data, keys);
    UpdateEntriesSendExactly(data, keys);
    forall k | k in Keys(form) ensures k in keys && Sends(data, k) {
      var i :| 0 <= i < |form| && Keys(form)[i] == k;
      assert form[i] in form;
    }
  }
}
