/** The admin working-hours editor (src/app/admin/components/HoursPage.tsx):
    rows are stored in 12-hour form, shown in a 24-hour time input, and an
    edit converts the input back to 12-hour form before it is stored. */
module HoursEditor {
  import opened Clock
  import opened Text
  import opened Types

  /** The hour rule of `convertTo24Hour`: a PM hour other than 12 gains 12,
      and 12 AM becomes 0. The result is the one 24-hour hour that agrees with
      the face hour modulo 12 and is in the afternoon exactly when `pm`. */
  function Hour24(faceHour: nat, pm: bool): (h: nat)
    requires faceHour <= 12
    ensures h <= 23 && h % 12 == faceHour % 12 && (h >= 12 <==> pm)
  {
    if pm && faceHour != 12 then faceHour + 12
    else if !pm && faceHour == 12 then 0
    else faceHour
  }

  /** The hour rule of `convertTo12Hour`: `hour % 12`, except that 0 shows
      as 12, so the face hour always lies in 1..12. */
  function Hour12(hour: nat): (h: nat)
    requires hour <= 23
    ensures 1 <= h <= 12 && h % 12 == hour % 12
  {
    if hour % 12 == 0 then 12 else hour % 12
  }

  /** The two hour rules undo each other. */
  lemma HourRulesInverse(hour: nat, faceHour: nat, pm: bool)
    requires hour <= 23 && 1 <= faceHour <= 12
    ensures Hour24(Hour12(hour), hour >= 12) == hour
    ensures Hour12(Hour24(faceHour, pm)) == faceHour
  {
  }

  /** `convertTo24Hour`: reads the face hour, minute and marker of "H:MM AM"
      and writes the zero-padded "HH:MM" of the hour the rule gives. */
  function ConvertTo24Hour(s: string): (r: string)
    requires Is12HourTime(s)
    ensures Is24HourTime(r) && r == Format24(Read24(r).hour, Read24(r).minute)
    ensures Read24(r) == TimeOfDay(Hour24(Face12(s).hour, IsPM(s)), Face12(s).minute)
  {
    var face := Face12(s);
    var hour := Hour24(face.hour, IsPM(s));
    Format24Reads(hour, face.minute);
    Format24(hour, face.minute)
  }

  /** `convertTo12Hour`: hours 12-23 are PM and 0-11 AM, and the result is
      the zero-padded "HH:MM AM" or "HH:MM PM" of the face hour. */
  function ConvertTo12Hour(s: string): (r: string)
    requires Is24HourTime(s)
    ensures Is12HourTime(r)
    ensures Face12(r) == TimeOfDay(Hour12(Read24(s).hour), Read24(s).minute)
    ensures IsPM(r) <==> Read24(s).hour >= 12
    ensures r == Format12(Face12(r).hour, Face12(r).minute, if IsPM(r) then "PM" else "AM")
  {
    var t := Read24(s);
    var meridiem := if t.hour >= 12 then "PM" else "AM";
    var hour := Hour12(t.hour);
    Format12Reads(hour, t.minute, meridiem);
    Format12(hour, t.minute, meridiem)
  }

  /** "HH:MM" survives the trip to 12-hour form and back; an input that was
      not zero-padded comes back padded. */
  lemma RoundTrip24(s: string)
    requires Is24HourTime(s)
    ensures ConvertTo24Hour(ConvertTo12Hour(s)) == Format24(Read24(s).hour, Read24(s).minute)
  {
    var t := Read24(s);
    var r := ConvertTo24Hour(ConvertTo12Hour(s));
    assert Read24(r) == TimeOfDay(Hour24(Hour12(t.hour), t.hour >= 12), t.minute);
    HourRulesInverse(t.hour, 1, false);
  }

  /** Conversely a 12-hour string with a face hour in 1..12 survives the trip
      through the 24-hour input, up to zero-padding. */
  lemma RoundTrip12(s: string)
    requires Is12HourTime(s) && Face12(s).hour >= 1
    ensures ConvertTo12Hour(ConvertTo24Hour(s)) ==
      Format12(Face12(s).hour, Face12(s).minute, if IsPM(s) then "PM" else "AM")
  {
    var f := Face12(s);
    var r := ConvertTo12Hour(ConvertTo24Hour(s));
    assert Face12(r) == TimeOfDay(Hour12(Hour24(f.hour, IsPM(s))), f.minute);
    HourRulesInverse(0, f.hour, IsPM(s));
  }

  /** The two edge hours of the 12-hour clock. */
  lemma MidnightAndNoon()
    ensures Is12HourTime("12:05 AM") && ConvertTo24Hour("12:05 AM") == "00:05"
    ensures Is12HourTime("12:05 PM") && ConvertTo24Hour("12:05 PM") == "12:05"
    ensures Is24HourTime("00:05") && ConvertTo12Hour("00:05") == "12:05 AM"
  {
    TwelveAm();
    TwelvePm();
    ZeroHour();
  }

  lemma TwelveAm()
    ensures Is12HourTime("12:05 AM") && ConvertTo24Hour("12:05 AM") == "00:05"
  {
    Format12Reads(12, 5, "AM");
    TwoDigitsOf(12);
    TwoDigitsOf(5);
    TwoDigitsOf(0);
    assert Format12(12, 5, "AM") == "12:05 AM";
    assert Format24(0, 5) == "00:05";
  }

  lemma TwelvePm()
    ensures Is12HourTime("12:05 PM") && ConvertTo24Hour("12:05 PM") == "12:05"
  {
    Format12Reads(12, 5, "PM");
    TwoDigitsOf(12);
    TwoDigitsOf(5);
    assert Format12(12, 5, "PM") == "12:05 PM";
    assert Format24(12, 5) == "12:05";
  }

  lemma ZeroHour()
    ensures Is24HourTime("00:05") && ConvertTo12Hour("00:05") == "12:05 AM"
  {
    Format24Reads(0, 5);
    TwoDigitsOf(12);
    TwoDigitsOf(5);
    TwoDigitsOf(0);
    assert Format24(0, 5) == "00:05";
    assert Format12(12, 5, "AM") == "12:05 AM";
  }

  datatype TimeField = OpenTime | CloseTime

  function TimeOf(row: Hours, field: TimeField): string {
    match field
    case OpenTime => row.openTime
    case CloseTime => row.closeTime
  }

  /** `handleHoursChange`: the row whose id matches gets `value` in the named
      field; its other field, its day and id, every other row, the number of
      rows and their order are unchanged. */
  function HandleHoursChange(rows: seq<Hours>, id: string, field: TimeField, value: string): (r: seq<Hours>)
    ensures |r| == |rows|
    ensures forall i :: 0 <= i < |rows| ==>
      r[i].id == rows[i].id && r[i].day == rows[i].day &&
      TimeOf(r[i], field) == (if rows[i].id == id then value else TimeOf(rows[i], field)) &&
      (forall other: TimeField :: other != field ==> TimeOf(r[i], other) == TimeOf(rows[i], other))
  {
    seq(|rows|, i requires 0 <= i < |rows| =>
      if rows[i].id == id then
        match field
        case OpenTime => rows[i].(openTime := value)
        case CloseTime => rows[i].(closeTime := value)
      else rows[i])
  }

  /** An edit made through the time input is shown back exactly as typed: the
      input's "HH:MM" is stored in 12-hour form and displayed in 24-hour form. */
  lemma EditIsDisplayedAsTyped(rows: seq<Hours>, id: string, field: TimeField, typed: string, i: nat)
    requires Is24HourTime(typed) && typed == Format24(Read24(typed).hour, Read24(typed).minute)
    requires i < |rows| && rows[i].id == id
    ensures var stored := HandleHoursChange(rows, id, field, ConvertTo12Hour(typed));
      Is12HourTime(TimeOf(stored[i], field)) && ConvertTo24Hour(TimeOf(stored[i], field)) == typed
  {
    RoundTrip24(typed);
  }
}
