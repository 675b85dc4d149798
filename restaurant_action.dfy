/** The restaurant listing action (src/action/restaurant/index.ts): the
    open/closed evaluation of today's working hours and the normalisation of
    the records and pagination the API returns. The current time is a
    parameter: milliseconds since local midnight. */
module RestaurantAction {
  import opened Wrappers
  import opened Text
  import opened Clock
  import opened Types
  import HoursEditor

  const MsPerMinute: nat := 60_000
  const MsPerDay: nat := 86_400_000

  /** `parseTime`: the same rule as the hours editor, written out again as two
      successive updates of `hours`. */
  function ParseTime(s: string): (t: TimeOfDay)
    requires Is12HourTime(s)
    ensures t.hour <= 23 && t.minute == Face12(s).minute
    ensures t.hour % 12 == Face12(s).hour % 12 && (t.hour >= 12 <==> IsPM(s))
  {
    var face := Face12(s);
    var pm := IsPM(s);
    var hours := if pm && face.hour != 12 then face.hour + 12 else face.hour;
    var hours := if !pm && hours == 12 then 0 else hours;
    TimeOfDay(hours, face.minute)
  }

  /** `parseTime` and the editor's `convertTo24Hour` read every 12-hour
      string as the same time of day. */
  lemma ParseTimeAgreesWithEditor(s: string)
    requires Is12HourTime(s)
    ensures Read24(HoursEditor.ConvertTo24Hour(s)) == ParseTime(s)
  {
  }

  predicate WellFormedHours(wh: WorkingHours) {
    Is12HourTime(wh.openTime) && Is12HourTime(wh.closeTime)
  }

  /** `createTimeDate`: that time today, at second 0 and millisecond 0. */
  function MsOfDay(t: TimeOfDay): nat {
    (t.hour * 60 + t.minute) * MsPerMinute
  }

  /** The instant of a time of day reads back as its hour and minute, on a
      whole minute. */
  lemma MsOfDayReads(t: TimeOfDay)
    requires t.hour <= 23 && t.minute <= 59
    ensures MsOfDay(t) < MsPerDay && MsOfDay(t) % MsPerMinute == 0
    ensures MsOfDay(t) / (60 * MsPerMinute) == t.hour && (MsOfDay(t) / MsPerMinute) % 60 == t.minute
  {
    var m := t.hour * 60 + t.minute;
    assert MsOfDay(t) == m * MsPerMinute;
    assert MsOfDay(t) / MsPerMinute == m;
    assert m * MsPerMinute / (60 * MsPerMinute) == m / 60;
  }

  /** Today's opening instant: the hour and minute `parseTime` reads from the
      opening time, on a whole minute. */
  function OpenMs(wh: WorkingHours): (ms: nat)
    requires WellFormedHours(wh)
    ensures ms < MsPerDay && ms % MsPerMinute == 0
    ensures ms / (60 * MsPerMinute) == ParseTime(wh.openTime).hour
    ensures (ms / MsPerMinute) % 60 == ParseTime(wh.openTime).minute
  {
    MsOfDayReads(ParseTime(wh.openTime));
    MsOfDay(ParseTime(wh.openTime))
  }

  /** Today's closing instant, read the same way from the closing time. */
  function CloseMs(wh: WorkingHours): (ms: nat)
    requires WellFormedHours(wh)
    ensures ms < MsPerDay && ms % MsPerMinute == 0
    ensures ms / (60 * MsPerMinute) == ParseTime(wh.closeTime).hour
    ensures (ms / MsPerMinute) % 60 == ParseTime(wh.closeTime).minute
  {
    MsOfDayReads(ParseTime(wh.closeTime));
    MsOfDay(ParseTime(wh.closeTime))
  }

  /** `checkIsOpen` as written: without working hours the restaurant is
      closed; a window whose close is earlier than its open has its close
      moved to tomorrow; open means `open <= now <= close`, both ends
      included. For such an overnight window that leaves "open iff now is at
      or after today's opening": the part of the window after midnight
      reports closed. */
  function CheckIsOpen(wh: Option<WorkingHours>, now: nat): (r: bool)
    requires now < MsPerDay
    requires wh.Some? ==> WellFormedHours(wh.value)
    ensures wh.None? ==> !r
    ensures wh.Some? && OpenMs(wh.value) <= CloseMs(wh.value) ==>
      (r <==> OpenMs(wh.value) <= now <= CloseMs(wh.value))
    ensures wh.Some? && CloseMs(wh.value) < OpenMs(wh.value) ==>
      (r <==> OpenMs(wh.value) <= now)
  {
    if wh.None? then false
    else
      var open := OpenMs(wh.value);
      var close := CloseMs(wh.value);
      var close := if close < open then close + MsPerDay else close;
      now >= open && now <= close
  }

  /** What an opening window means on a 24-hour clock: `now` lies in the
      window that opened today, or in the one that opened yesterday and runs
      past midnight. */
  ghost predicate WithinWindow(wh: WorkingHours, now: nat)
    requires WellFormedHours(wh)
  {
    var open := OpenMs(wh);
    var close := if CloseMs(wh) < open then CloseMs(wh) + MsPerDay else CloseMs(wh);
    (open <= now <= close) || (open <= now + MsPerDay <= close)
  }

  /** The evaluation as written misses exactly the after-midnight part of an
      overnight window: it agrees with `WithinWindow` except there. */
  lemma CheckIsOpenMissesAfterMidnight(wh: WorkingHours, now: nat)
    requires now < MsPerDay && WellFormedHours(wh)
    ensures CheckIsOpen(Some(wh), now) ==> WithinWindow(wh, now)
    ensures WithinWindow(wh, now) && !CheckIsOpen(Some(wh), now) <==>
      CloseMs(wh) < OpenMs(wh) && now <= CloseMs(wh)
  {
  }

  /** A window from 10 PM to 2 AM, evaluated at 1 AM: inside the window, yet
      reported closed. */
  lemma OvernightWindowReportsClosedAfterMidnight()
    ensures WellFormedHours(WorkingHours("10:00 PM", "02:00 AM"))
    ensures WithinWindow(WorkingHours("10:00 PM", "02:00 AM"), 3_600_000)
    ensures !CheckIsOpen(Some(WorkingHours("10:00 PM", "02:00 AM")), 3_600_000)
  {
    TenPm();
    TwoAm();
  }

  lemma TenPm()
    ensures Is12HourTime("10:00 PM") && ParseTime("10:00 PM") == TimeOfDay(22, 0)
  {
    Format12Reads(10, 0, "PM");
    TwoDigitsOf(10);
    TwoDigitsOf(0);
    assert Format12(10, 0, "PM") == "10:00 PM";
  }

  lemma TwoAm()
    ensures Is12HourTime("02:00 AM") && ParseTime("02:00 AM") == TimeOfDay(2, 0)
  {
    Format12Reads(2, 0, "AM");
    TwoDigitsOf(2);
    TwoDigitsOf(0);
    assert Format12(2, 0, "AM") == "02:00 AM";
  }

  /** The evaluation the overnight rule evidently intends: an overnight
      window is open from its opening until midnight and from midnight until
      its close. */
  function CheckIsOpenAcrossMidnight(wh: Option<WorkingHours>, now: nat): (r: bool)
    requires now < MsPerDay
    requires wh.Some? ==> WellFormedHours(wh.value)
    ensures wh.None? ==> !r
    ensures wh.Some? ==> (r <==> WithinWindow(wh.value, now))
  {
    if wh.None? then false
    else
      var open := OpenMs(wh.value);
      var close := CloseMs(wh.value);
      if close < open then now >= open || now <= close
      else now >= open && now <= close
  }

  /** The record the API returns for a restaurant; any field may be missing. */
  datatype RawRestaurant = RawRestaurant(
    id: Option<string>,
    name: Option<string>,
    email: Option<string>,
    phoneNumber: Option<string>,
    location: Option<string>,
    image: Option<string>,
    createdAt: Option<string>,
    updatedAt: Option<string>,
    todayWorkingHours: Option<WorkingHours>)

  const PlaceholderImage := "/placeholder.svg?height=100&width=200"

  /** `value || fallback` on an optional string. */
  function OrDefault(v: Option<string>, fallback: string): (r: string)
    ensures IsPresent(v) ==> r == v.value
    ensures !IsPresent(v) ==> r == fallback
  {
    if IsPresent(v) then v.value else fallback
  }

  predicate HoursReadable(item: RawRestaurant) {
    item.todayWorkingHours.Some? ==> WellFormedHours(item.todayWorkingHours.value)
  }

  /** The per-item mapping of `fetchAllRestaurants`. The open flag is
      `checkIsOpen` as written, so it is never set outside the window but
      stays off after midnight inside an overnight one. */
  function NormalizeRestaurant(item: RawRestaurant, now: nat): (r: Restaurant)
    requires now < MsPerDay && HoursReadable(item)
    ensures r.id == OrDefault(item.id, "") && r.email == OrDefault(item.email, "")
    ensures r.phoneNumber == OrDefault(item.phoneNumber, "")
    ensures r.createdAt == OrDefault(item.createdAt, "") && r.updatedAt == OrDefault(item.updatedAt, "")
    ensures r.name == OrDefault(item.name, "Unnamed Restaurant") && r.location == OrDefault(item.location, "No location")
    ensures r.image == OrDefault(item.image, PlaceholderImage)
    ensures r.name != "" && r.location != "" && r.image != ""
    ensures !IsPresent(item.name) ==> r.name == "Unnamed Restaurant"
    ensures !IsPresent(item.location) ==> r.location == "No location"
    ensures !IsPresent(item.image) ==> r.image == PlaceholderImage
    ensures r.todayWorkingHours == item.todayWorkingHours
    ensures r.todayWorkingHours.None? ==> !r.isOpen
    ensures r.isOpen == CheckIsOpen(item.todayWorkingHours, now)
    ensures r.todayWorkingHours.Some? && r.isOpen ==> WithinWindow(r.todayWorkingHours.value, now)
  {
    Restaurant(
      OrDefault(item.id, ""),
      OrDefault(item.name, "Unnamed Restaurant"),
      OrDefault(item.email, ""),
      OrDefault(item.phoneNumber, ""),
      OrDefault(item.location, "No location"),
      OrDefault(item.image, PlaceholderImage),
      OrDefault(item.createdAt, ""),
      OrDefault(item.updatedAt, ""),
      item.todayWorkingHours,
      CheckIsOpen(item.todayWorkingHours, now))
  }

  /** With the corrected evaluation the listing would report every
      restaurant open that it reports open now, and in addition exactly those
      inside the after-midnight part of an overnight window. */
  lemma ListingWithCorrectedCheck(item: RawRestaurant, now: nat)
    requires now < MsPerDay && HoursReadable(item)
    ensures var r := NormalizeRestaurant(item, now);
      var corrected := CheckIsOpenAcrossMidnight(item.todayWorkingHours, now);
      (r.isOpen ==> corrected) &&
      (corrected && !r.isOpen <==>
         item.todayWorkingHours.Some? &&
         CloseMs(item.todayWorkingHours.value) < OpenMs(item.todayWorkingHours.value) &&
         now <= CloseMs(item.todayWorkingHours.value))
  {
    if item.todayWorkingHours.Some? {
      CheckIsOpenMissesAfterMidnight(item.todayWorkingHours.value, now);
    }
  }

  /** The request of `fetchAllRestaurants`: `GET users` with the search as
      given, `page || 1` and `limit || 10`. */
  function RestaurantsRequest(params: ListQuery): (r: (string, ListQuery))
    ensures r.0 == "users" && r.1 == RequestQuery(params)
    ensures r.1.search == params.search
    ensures params.page.Some? && params.page.value != 0 ==> r.1.page == params.page
    ensures params.page.None? || params.page == Some(0) ==> r.1.page == Some(1)
    ensures params.limit.Some? && params.limit.value != 0 ==> r.1.limit == params.limit
    ensures params.limit.None? || params.limit == Some(0) ==> r.1.limit == Some(10)
  {
    ("users", RequestQuery(params))
  }

  /** What the GET request produced: it threw, it returned no body, a bare
      array, or an object with optional `data` and `pagination`. */
  datatype ListReply =
    | Threw
    | NoData
    | ArrayBody(items: seq<RawRestaurant>)
    | ObjectBody(data: Option<seq<RawRestaurant>>, pagination: Option<Pagination>)

  /** `Array.isArray(data) ? data : (data.data || [])`. */
  function ReplyItems(reply: ListReply): seq<RawRestaurant> {
    match reply
    case ArrayBody(items) => items
    case ObjectBody(data, _) => data.GetOr([])
    case _ => []
  }

  predicate ReplyReadable(reply: ListReply) {
    forall item :: item in ReplyItems(reply) ==> HoursReadable(item)
  }

  datatype RestaurantList = RestaurantList(restaurants: seq<Restaurant>, pagination: Pagination)

  const EmptyPagination := Pagination(1, 1, 0, 0, false, false)

  /** The pagination used when the reply carries none: one page holding
      every restaurant. */
  function FallbackPagination(count: nat): (p: Pagination)
    ensures p.currentPage == 1 && p.totalPages == 1
    ensures p.totalItems == count && p.itemsPerPage == count
    ensures !p.hasNextPage && !p.hasPreviousPage
  {
    Pagination(1, 1, count, count, false, false)
  }

  /** `fetchAllRestaurants` after the request: a failure of any kind gives an
      empty list with a zero-item pagination rather than an error; otherwise
      every item is normalised, in order, and a missing pagination falls back
      to a single page holding every restaurant. */
  function FetchAllRestaurants(reply: ListReply, now: nat): (r: RestaurantList)
    requires now < MsPerDay && ReplyReadable(reply)
    ensures reply.Threw? || reply.NoData? ==> r == RestaurantList([], EmptyPagination)
    ensures |r.restaurants| == |ReplyItems(reply)|
    ensures forall i :: 0 <= i < |r.restaurants| ==>
      r.restaurants[i] == NormalizeRestaurant(ReplyItems(reply)[i], now)
    ensures reply.ObjectBody? && reply.pagination.Some? ==> r.pagination == reply.pagination.value
    ensures reply.ArrayBody? || (reply.ObjectBody? && reply.pagination.None?) ==>
      r.pagination == FallbackPagination(|r.restaurants|)
  {
    if reply.Threw? || reply.NoData? then RestaurantList([], EmptyPagination)
    else
      var items := ReplyItems(reply);
      var restaurants := seq(|items|, i requires 0 <= i < |items| => NormalizeRestaurant(items[i], now));
      var pagination :=
        if reply.ObjectBody? && reply.pagination.Some? then reply.pagination.value
        else FallbackPagination(|restaurants|);
      RestaurantList(restaurants, pagination)
  }
}
