/** The records the frontend exchanges with the REST API. Prices are integer
    cents rather than floating-point currency units. */
module Types {
  import opened Wrappers

  datatype CategoryRef = CategoryRef(id: string, name: string)

  datatype Menu = Menu(
    id: string,
    name: string,
    price: int,
    image: string,
    measure: string,
    available: bool,
    category: CategoryRef,
    createdBy: string)

  datatype Pagination = Pagination(
    currentPage: int,
    totalPages: nat,
    totalItems: int,
    itemsPerPage: int,
    hasNextPage: bool,
    hasPreviousPage: bool)

  /** One row of the weekly working-hours table. */
  datatype Hours = Hours(day: string, openTime: string, closeTime: string, id: string)

  /** Today's opening window as the API reports it, e.g. "09:00 AM" / "10:00 PM". */
  datatype WorkingHours = WorkingHours(openTime: string, closeTime: string)

  datatype Restaurant = Restaurant(
    id: string,
    name: string,
    email: string,
    phoneNumber: string,
    location: string,
    image: string,
    createdAt: string,
    updatedAt: string,
    todayWorkingHours: Option<WorkingHours>,
    isOpen: bool)

  datatype User = User(
    id: string,
    name: string,
    email: string,
    phoneNumber: string,
    location: string,
    image: string)

  /** A file picked in the browser; only its identity matters here. */
  datatype FileRef = FileRef(name: string)

  /** A JavaScript number as a form field holds it: `NaN` (from `parseFloat`
      of an unreadable input) or an amount in cents. */
  datatype Amount = NaN | Cents(cents: int)

  /** JavaScript truthiness of a number: 0 and `NaN` are falsy. */
  predicate IsTruthy(a: Amount) {
    a.Cents? && a.cents != 0
  }

  /** JavaScript truthiness of an optional string: absent and "" are falsy. */
  predicate IsPresent(s: Option<string>) {
    s.Some? && s.value != ""
  }

  /** The value half of one `FormData` entry. */
  datatype FormValue = Text(text: string) | Blob(file: FileRef)

  datatype FormEntry = FormEntry(key: string, value: FormValue)

  /** The multipart body, as the ordered list of its appended entries. */
  type Form = seq<FormEntry>

  function Keys(form: Form): (r: seq<string>)
    ensures |r| == |form| && forall i :: 0 <= i < |form| ==> r[i] == form[i].key
  {
    seq(|form|, i requires 0 <= i < |form| => form[i].key)
  }

  /** The browser's `localStorage`: string values under string keys. */
  type Storage = map<string, string>

  /** `localStorage.getItem(key)` as a truthy value: an absent key and an
      empty string both read as missing. */
  function StoredValue(st: Storage, key: string): (r: Option<string>)
    ensures r.Some? <==> key in st && st[key] != ""
    ensures r.Some? ==> r.value == st[key]
  {
    if key in st && st[key] != "" then Some(st[key]) else None
  }

  /** The query parameters of the list requests. */
  datatype ListQuery = ListQuery(search: Option<string>, page: Option<int>, limit: Option<int>)

  /** `n || fallback` on an optional number. */
  function NumberOr(n: Option<int>, fallback: int): (r: int)
    ensures n.Some? && n.value != 0 ==> r == n.value
    ensures n.None? || n.value == 0 ==> r == fallback
  {
    if n.Some? && n.value != 0 then n.value else fallback
  }

  /** The parameters sent: `page || 1` and `limit || 10`, the search as
      given. */
  function RequestQuery(q: ListQuery): (r: ListQuery)
    ensures r.search == q.search
    ensures r.page.Some? && r.page.value != 0 && r.limit.Some? && r.limit.value != 0
    ensures q.page.None? || q.page == Some(0) ==> r.page == Some(1)
    ensures q.limit.None? || q.limit == Some(0) ==> r.limit == Some(10)
    ensures q.page.Some? && q.page.value != 0 ==> r.page == q.page
    ensures q.limit.Some? && q.limit.value != 0 ==> r.limit == q.limit
  {
    ListQuery(q.search, Some(NumberOr(q.page, 1)), Some(NumberOr(q.limit, 10)))
  }
}
