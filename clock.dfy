/** Reading the two time-of-day formats the frontend uses: the API's
    12-hour "HH:MM AM" strings and the time input's 24-hour "HH:MM". */
module Clock {
  import opened Text

  /** An hour and minute read from a time string. */
  datatype TimeOfDay = TimeOfDay(hour: nat, minute: nat)

  predicate IsMeridiem(m: string) { m == "AM" || m == "PM" }

  /** "H:MM AM" or "HH:MM PM": an hour up to 12, a minute up to 59, a single
      space and a meridiem marker. */
  predicate Is12HourTime(s: string) {
    var parts := Split(s, ' ');
    |parts| == 2 && IsMeridiem(parts[1]) &&
    var hm := Split(parts[0], ':');
    |hm| == 2 && AllDigits(hm[0]) && AllDigits(hm[1]) &&
    NumberValue(hm[0]) <= 12 && NumberValue(hm[1]) <= 59
  }

  /** "HH:MM" as a time input reports it: an hour up to 23, a minute up to 59. */
  predicate Is24HourTime(s: string) {
    var hm := Split(s, ':');
    |hm| == 2 && AllDigits(hm[0]) && AllDigits(hm[1]) &&
    NumberValue(hm[0]) <= 23 && NumberValue(hm[1]) <= 59
  }

  /** The numbers on the clock face of a 12-hour string, before any AM/PM rule. */
  function Face12(s: string): (t: TimeOfDay)
    requires Is12HourTime(s)
    ensures t.hour <= 12 && t.minute <= 59
  {
    var hm := Split(Split(s, ' ')[0], ':');
    TimeOfDay(NumberValue(hm[0]), NumberValue(hm[1]))
  }

  function IsPM(s: string): bool
    requires Is12HourTime(s)
  {
    Split(s, ' ')[1] == "PM"
  }

  function Read24(s: string): (t: TimeOfDay)
    requires Is24HourTime(s)
    ensures t.hour <= 23 && t.minute <= 59
  {
    var hm := Split(s, ':');
    TimeOfDay(NumberValue(hm[0]), NumberValue(hm[1]))
  }

  /** The canonical 24-hour text of an hour and minute. */
  function Format24(hour: nat, minute: nat): string {
    TwoDigits(hour) + ":" + TwoDigits(minute)
  }

  /** The canonical 12-hour text of a clock-face hour, minute and marker. */
  function Format12(hour: nat, minute: nat, meridiem: string): string {
    Format24(hour, minute) + " " + meridiem
  }

  /** A canonical 24-hour string is read back as the hour and minute it was
      written from. */
  lemma {:induction false} Format24Reads(hour: nat, minute: nat)
    requires hour <= 23 && minute <= 59
    ensures Is24HourTime(Format24(hour, minute))
    ensures Read24(Format24(hour, minute)) == TimeOfDay(hour, minute)
  {
    TwoDigitsOf(hour);
    TwoDigitsOf(minute);
    var h, m := TwoDigits(hour), TwoDigits(minute);
    SplitFirst(h, ':', m);
    SplitNoSeparator(m, ':');
    assert h + ":" + m == h + [':'] + m;
  }

  /** A canonical 12-hour string is read back as the face hour, minute and
      marker it was written from. */
  lemma {:induction false} Format12Reads(hour: nat, minute: nat, meridiem: string)
    requires hour <= 12 && minute <= 59 && IsMeridiem(meridiem)
    ensures Is12HourTime(Format12(hour, minute, meridiem))
    ensures Face12(Format12(hour, minute, meridiem)) == TimeOfDay(hour, minute)
    ensures IsPM(Format12(hour, minute, meridiem)) <==> meridiem == "PM"
  {
    TwoDigitsOf(hour);
    TwoDigitsOf(minute);
    var h, m := TwoDigits(hour), TwoDigits(minute);
    var t := Format24(hour, minute);
    assert t == h + [':'] + m;
    assert ' ' !in t;
    SplitFirst(t, ' ', meridiem);
    SplitNoSeparator(meridiem, ' ');
    assert Format12(hour, minute, meridiem) == t + [' '] + meridiem;
    SplitFirst(h, ':', m);
    SplitNoSeparator(m, ':');
  }
}
