/** components/DateTimePicker.tsx: the month grid, the `YYYY-MM-DD` date key,
    the free time slots of the selected barber on the selected day, the
    disabled-day rule, and the picker's own selection state. */
module DateTimePicker {
  import opened Wrappers
  import opened Seqs
  import opened Text
  import opened Civil
  import opened Types

  // ---------------------------------------------------------------- date key

  /** `toDateString`: year as `String(year)`, then month and day padded to two digits. */
  function DateKey(d: CalendarDate): (key: string)
    ensures |key| >= 7
    ensures key[|key| - 6] == '-' && key[|key| - 3] == '-'
    ensures AllDigits(key[|key| - 5..|key| - 3]) && ParseDigits(key[|key| - 5..|key| - 3]) == d.month
    ensures AllDigits(key[|key| - 2..]) && ParseDigits(key[|key| - 2..]) == d.day
  {
    var y, mm, dd := IntToString(d.year), Pad2(d.month), Pad2(d.day);
    var key := y + "-" + mm + "-" + dd;
    assert key[|key| - 5..|key| - 3] == mm && key[|key| - 2..] == dd;
    key
  }

  /** Reads a key back: `<year>-<MM>-<DD>` naming a real calendar day. */
  function ParseDateKey(s: string): (r: Option<CalendarDate>)
  {
    var n := |s|;
    if n < 7 || s[n - 6] != '-' || s[n - 3] != '-' then None
    else if !AllDigits(s[n - 5..n - 3]) || !AllDigits(s[n - 2..]) then None
    else match ParseInt(s[..n - 6])
      case None => None
      case Some(y) =>
        var d := Date(y, ParseDigits(s[n - 5..n - 3]), ParseDigits(s[n - 2..]));
        if ValidDate(d) then Some(d) else None
  }

  /** The key names its date exactly: reading it back gives the date. */
  lemma DateKeyRoundTrip(d: CalendarDate)
    ensures ParseDateKey(DateKey(d)) == Some(d)
  {
    var key := DateKey(d);
    var y := IntToString(d.year);
    assert key[..|key| - 6] == y;
    ParseIntToString(d.year);
  }

  /** Two dates share a key only when they are the same calendar day, so the
      override map has exactly one entry per day. */
  lemma DateKeyInjective(a: CalendarDate, b: CalendarDate)
    ensures DateKey(a) == DateKey(b) <==> a == b
  {
    if DateKey(a) == DateKey(b) {
      DateKeyRoundTrip(a);
      DateKeyRoundTrip(b);
    }
  }

  // -------------------------------------------------------------- month grid

  /** Blank cells before day 1: the week starts on Saturday for "fa", on Sunday otherwise. */
  function LeadingBlanks(firstDayIndex: int, language: string): (k: int)
    requires 0 <= firstDayIndex < 7
    ensures 0 <= k < 7
    ensures language != "fa" ==> k == firstDayIndex
    ensures language == "fa" ==> (k + 6) % 7 == firstDayIndex
  {
    if language == "fa" then (firstDayIndex + 1) % 7 else firstDayIndex
  }

  /** Column of a day under the weekday headers (Saturday first for "fa"). */
  function Column(d: CalendarDate, language: string): int {
    if language == "fa" then (DayOfWeek(d) + 1) % 7 else DayOfWeek(d)
  }

  /** Day d of a month falls d - 1 weekdays after the first of the month. */
  lemma {:induction false} WeekdayInMonth(y: int, m: int, d: int)
    requires 1 <= m <= 12 && 1 <= d <= DaysInMonth(y, m)
    ensures DayOfWeek(Date(y, m, d)) == (DayOfWeek(Date(y, m, 1)) + d - 1) % 7
  {
    if d > 1 {
      var w1, prev := DayOfWeek(Date(y, m, 1)), DayOfWeek(Date(y, m, d - 1));
      WeekdayInMonth(y, m, d - 1);
      assert prev == (w1 + d - 2) % 7;
      NextDayOfWeek(Date(y, m, d - 1));
      assert NextDay(Date(y, m, d - 1)) == Date(y, m, d);
      assert DayOfWeek(Date(y, m, d)) == (prev + 1) % 7;
      ModSeven(w1 + d - 2);
    }
  }

  /** The cell of day d sits in the column whose header names its weekday. */
  lemma DayColumn(y: int, m: int, d: int, language: string)
    requires 1 <= m <= 12 && 1 <= d <= DaysInMonth(y, m)
    ensures (LeadingBlanks(DayOfWeek(Date(y, m, 1)), language) + d - 1) % 7 == Column(Date(y, m, d), language)
  {
    WeekdayInMonth(y, m, d);
    var w1 := DayOfWeek(Date(y, m, 1));
    if language == "fa" {
      ShiftMod(w1, d);
    }
  }

  lemma ShiftMod(w: int, d: int)
    requires 0 <= w < 7 && d >= 1
    ensures ((w + 1) % 7 + d - 1) % 7 == ((w + d - 1) % 7 + 1) % 7
  {
  }

  function FirstOfMonth(d: CalendarDate): (first: CalendarDate)
    ensures first.year == d.year && first.month == d.month && first.day == 1
  {
    Date(d.year, d.month, 1)
  }

  /** `daysInMonth`: the blanks, then one cell per day of the month, walking the
      date forward with `setDate(getDate() + 1)` until the month changes. Each
      day lands in the column of its weekday. */
  method MonthGrid(currentMonth: CalendarDate, language: string) returns (days: seq<Option<CalendarDate>>)
    ensures var lead := LeadingBlanks(DayOfWeek(FirstOfMonth(currentMonth)), language);
      && |days| == lead + DaysInMonth(currentMonth.year, currentMonth.month)
      && (forall j :: 0 <= j < lead ==> days[j] == None)
      && (forall j :: lead <= j < |days| ==>
            days[j] == Some(Date(currentMonth.year, currentMonth.month, j - lead + 1)))
      && (forall j :: lead <= j < |days| ==> days[j].Some? && j % 7 == Column(days[j].value, language))
  {
    var y, m := currentMonth.year, currentMonth.month;
    var dim := DaysInMonth(y, m);
    var date := FirstOfMonth(currentMonth);
    days := [];
    var firstDayIndex := DayOfWeek(date);
    var adjustedFirstDayIndex := LeadingBlanks(firstDayIndex, language);
    for i := 0 to adjustedFirstDayIndex
      invariant |days| == i
      invariant forall j :: 0 <= j < i ==> days[j] == None
    {
      days := days + [None];
    }
    while date.month == m
      invariant date.month == m ==> date.year == y && |days| == adjustedFirstDayIndex + date.day - 1
      invariant date.month != m ==> |days| == adjustedFirstDayIndex + dim
      invariant forall j :: 0 <= j < adjustedFirstDayIndex ==> days[j] == None
      invariant forall j :: adjustedFirstDayIndex <= j < |days| ==> days[j] == Some(Date(y, m, j - adjustedFirstDayIndex + 1))
      decreases if date.month == m then dim + 1 - date.day else 0
    {
      days := days + [Some(date)];
      date := NextDay(date);
    }
    forall j | adjustedFirstDayIndex <= j < |days|
      ensures days[j].Some? && j % 7 == Column(days[j].value, language)
    {
      DayColumn(y, m, j - adjustedFirstDayIndex + 1, language);
    }
  }

  // ------------------------------------------------------------ availability

  /** Times of the bookings held by barber `barberId` on `date`, in list order
      (`null` for a booking without a time). */
  function BookedTimes(bookings: seq<BookingDetails>, barberId: int, date: CalendarDate): (r: seq<Option<string>>)
    ensures forall t :: Some(t) in r <==> SlotCount(bookings, SlotKey(barberId, date, t)) > 0
  {
    if bookings == [] then []
    else
      var b := bookings[0];
      var rest := BookedTimes(bookings[1..], barberId, date);
      assert forall t :: SlotCount(bookings, SlotKey(barberId, date, t)) > 0 <==>
        Occupies(b, SlotKey(barberId, date, t)) || SlotCount(bookings[1..], SlotKey(barberId, date, t)) > 0 by {
        assert bookings == [b] + bookings[1..];
        forall t { SlotCountAppend([b], bookings[1..], SlotKey(barberId, date, t)); }
      }
      (if b.barber.Some? && b.barber.value.id == barberId && b.date == Some(date) then [b.time] else []) + rest
  }

  /** `potentialSlots.filter(slot => !booked.includes(slot))`. */
  function Unbooked(slots: seq<string>, booked: seq<Option<string>>): (r: seq<string>)
    ensures IsSubsequence(r, slots)
    ensures forall x :: x in r <==> x in slots && Some(x) !in booked
  {
    if slots == [] then []
    else if Some(slots[0]) in booked then Unbooked(slots[1..], booked)
    else
      assert slots == [slots[0]] + slots[1..];
      [slots[0]] + Unbooked(slots[1..], booked)
  }

  /** The slots a barber offers on a date before bookings are taken out
      (`potentialSlots`): the override's slots if it exists and is working,
      none if it exists and is not, else the weekly default on a default working day. */
  function Candidates(schedule: BarberSchedule, date: CalendarDate): seq<string> {
    var dateString := DateKey(date);
    var dayOfWeek := DayOfWeek(date);
    if dateString in schedule.overrides then
      var o := schedule.overrides[dateString];
      if o.isWorking then o.slots else []
    else if dayOfWeek in schedule.defaultWorkingDays then schedule.defaultSlots
    else []
  }

  /** `availableTimeSlots`: nothing until a date, a schedule and a barber are
      known; then the candidate slots that no booking of the same barber on
      the same calendar day holds, in their original order. */
  function AvailableTimeSlots(selectedDate: Option<CalendarDate>, schedule: Option<BarberSchedule>,
                              barber: Option<Barber>, allBookings: seq<BookingDetails>): (r: seq<string>)
    ensures selectedDate.None? || schedule.None? || barber.None? ==> r == []
    ensures selectedDate.Some? && schedule.Some? && barber.Some? ==>
      IsSubsequence(r, Candidates(schedule.value, selectedDate.value))
    ensures selectedDate.Some? && schedule.Some? && barber.Some? ==>
      forall x :: x in r <==>
        x in Candidates(schedule.value, selectedDate.value) &&
        SlotCount(allBookings, SlotKey(barber.value.id, selectedDate.value, x)) == 0
  {
    if selectedDate.None? || schedule.None? || barber.None? then []
    else
      var date := selectedDate.value;
      Unbooked(Candidates(schedule.value, date), BookedTimes(allBookings, barber.value.id, date))
  }

  /** A calendar cell is disabled when the day is before today or is not a
      working day (override first, else the weekly default). */
  function IsDayDisabled(day: CalendarDate, today: CalendarDate, schedule: BarberSchedule): bool {
    var dateString := DateKey(day);
    var isWorking := if dateString in schedule.overrides then schedule.overrides[dateString].isWorking
                     else DayOfWeek(day) in schedule.defaultWorkingDays;
    Before(day, today) || !isWorking
  }

  // --------------------------------------------------------- selection state

  /** The picker's own state: the selected date and time. */
  class DatePicker {
    var selectedDate: Option<CalendarDate>
    var selectedTime: Option<string>

    constructor (details: BookingDetails)
      ensures selectedDate == details.date && selectedTime == details.time
    {
      selectedDate := details.date;
      selectedTime := details.time;
    }

    /** `isNextDisabled`: no date, or no time (the empty string is falsy too). */
    predicate IsNextDisabled()
      reads this
    {
      selectedDate.None? || selectedTime.None? || selectedTime == Some("")
    }

    /** `handleDateSelect`: a new day drops the chosen time, so Next is disabled again. */
    method HandleDateSelect(day: CalendarDate)
      modifies this
      ensures selectedDate == Some(day) && selectedTime == None
      ensures IsNextDisabled()
    {
      selectedDate := Some(day);
      selectedTime := None;
    }

    /** `handleTimeSelect`: records the time and, when a date is selected, hands
        (date, time) to the booking flow; returns what was handed over. */
    method HandleTimeSelect(time: string) returns (handedOver: Option<(CalendarDate, string)>)
      modifies this
      ensures selectedTime == Some(time) && selectedDate == old(selectedDate)
      ensures handedOver == if old(selectedDate).Some? then Some((old(selectedDate).value, time)) else None
      ensures !IsNextDisabled() <==> selectedDate.Some? && time != ""
    {
      selectedTime := Some(time);
      if selectedDate.Some? {
        handedOver := Some((selectedDate.value, time));
      } else {
        handedOver := None;
      }
    }
  }
}
