/** App.tsx: the app-wide state (booking step, confirmed bookings, admin
    mode, the booking being built) and its handlers; the comparator and sort
    used when a booking is confirmed; the initial data. */
module App {
  import opened Wrappers
  import opened Seqs
  import opened Text
  import opened Civil
  import opened Types
  import opened AdminPanel
  import opened ServiceSelector
  import opened UserInfoForm

  // ------------------------------------------------------ booking comparator

  /** `const [h, m] = time.split(':')` then `setHours(parseInt(h, 10), parseInt(m, 10))`,
      read as minutes after midnight. `setHours` rolls hours and minutes over
      arithmetically, so any integers give an offset; a missing minute part or
      an unparsable piece makes the date NaN (None). */
  function TimeOfDay(time: string): Option<int> {
    var h := BeforeColon(time);
    if |h| == |time| then None
    else
      var hours := JsParseInt(h);
      var minutes := JsParseInt(BeforeColon(time[|h| + 1..]));
      if hours.Some? && minutes.Some? then Some(hours.value * 60 + minutes.value) else None
  }

  /** Minutes after midnight written by a `DD:DD` slot string. */
  function SlotMinutes(time: string): (n: int)
    requires IsSlotFormat(time)
    ensures 0 <= n <= 99 * 60 + 99
  {
    TwoDigits(time[..2]);
    TwoDigits(time[3..]);
    ParseDigits(time[..2]) * 60 + ParseDigits(time[3..])
  }

  /** A slot string that is a real clock time, 00:00 .. 23:59. */
  predicate IsClockTime(time: string) {
    IsSlotFormat(time) && ParseDigits(time[..2]) < 24 && ParseDigits(time[3..]) < 60
  }

  /** `split(':')` of a slot string: the two digit pairs. */
  lemma SlotPieces(time: string)
    requires IsSlotFormat(time)
    ensures BeforeColon(time) == time[..2]
    ensures BeforeColon(time[|BeforeColon(time)| + 1..]) == time[3..]
  {
    assert BeforeColon(time) == time[..2];
    assert BeforeColon(time[3..]) == time[3..];
  }

  /** `parseInt` of a slot's hour piece is the hour it spells. */
  lemma SlotHoursParse(time: string)
    requires IsSlotFormat(time)
    ensures JsParseInt(time[..2]) == Some(ParseDigits(time[..2]))
  {
    assert AllDigits(time[..2]);
  }

  /** `parseInt` of a slot's minute piece is the minute it spells. */
  lemma SlotMinutesParse(time: string)
    requires IsSlotFormat(time)
    ensures JsParseInt(time[3..]) == Some(ParseDigits(time[3..]))
  {
    assert AllDigits(time[3..]);
  }

  /** `TimeOfDay` of a string whose two `split(':')` pieces parse. */
  lemma TimeOfDayOfPieces(time: string, h: string, m: string, hours: int, minutes: int)
    requires h == BeforeColon(time) && |h| != |time| && m == BeforeColon(time[|h| + 1..])
    requires JsParseInt(h) == Some(hours) && JsParseInt(m) == Some(minutes)
    ensures TimeOfDay(time).Some? && TimeOfDay(time).value == hours * 60 + minutes
  {
  }

  /** Every slot the schedule editor accepts is read by the comparator as the
      hour and minute it spells. */
  lemma SlotTimeOfDay(time: string)
    requires IsSlotFormat(time)
    ensures TimeOfDay(time).Some?
    ensures TimeOfDay(time).value == SlotMinutes(time)
  {
    SlotPieces(time);
    SlotHoursParse(time);
    SlotMinutesParse(time);
    TimeOfDayOfPieces(time, time[..2], time[3..], ParseDigits(time[..2]), ParseDigits(time[3..]));
  }

  /** The instant a booking stands for, in minutes from 0001-01-01 00:00: the
      date at midnight, moved by the time when the time is not empty. None is
      the NaN of an unparsable time. */
  function BookingInstant(b: BookingDetails): Option<int>
    requires b.date.Some?
  {
    var midnight := DayNumber(b.date.value) * 1440;
    if b.time.None? || b.time.value == "" then Some(midnight)
    else
      match TimeOfDay(b.time.value)
      case Some(offset) => Some(midnight + offset)
      case None => None
  }

  /** A booking the comparator can place: it has a date and its time is empty
      or parses. */
  predicate Keyed(b: BookingDetails) {
    b.date.Some? && BookingInstant(b).Some?
  }

  /** The comparator passed to `sort`: 0 when either booking has no date, else
      the difference of the two instants; NaN counts as 0, as `sort` treats it. */
  function CompareBookings(a: BookingDetails, b: BookingDetails): int {
    if a.date.None? || b.date.None? then 0
    else
      match (BookingInstant(a), BookingInstant(b))
      case (Some(x), Some(y)) => x - y
      case _ => 0
  }

  /** Swapping the arguments negates the comparison. */
  lemma CompareAntisymmetric(a: BookingDetails, b: BookingDetails)
    ensures CompareBookings(a, b) == -CompareBookings(b, a)
  {
  }

  /** Instants on whole days: the day decides, then the minute of the day. */
  lemma InstantOrder(x: int, y: int, s: int, t: int)
    requires 0 <= s < 1440 && 0 <= t < 1440
    ensures (x * 1440 + s) - (y * 1440 + t) < 0 <==> x < y || (x == y && s < t)
    ensures (x * 1440 + s) - (y * 1440 + t) == 0 <==> x == y && s == t
  {
    if x < y {
      assert (y - x) * 1440 >= 1440;
    } else if y < x {
      assert (x - y) * 1440 >= 1440;
    }
  }

  /** A booking whose time reads as a minute of the day sits at that minute of
      its date. */
  lemma InstantOfTime(b: BookingDetails, m: int)
    requires b.date.Some? && b.time.Some? && b.time.value != ""
    requires TimeOfDay(b.time.value).Some? && TimeOfDay(b.time.value).value == m
    ensures BookingInstant(b).Some?
    ensures BookingInstant(b).value == DayNumber(b.date.value) * 1440 + m
  {
  }

  /** A booking with a date and a clock time sits at that day's minute. */
  lemma ClockInstant(b: BookingDetails, m: int)
    requires b.date.Some? && b.time.Some? && IsClockTime(b.time.value)
    requires SlotMinutes(b.time.value) == m
    ensures BookingInstant(b).Some?
    ensures BookingInstant(b).value == DayNumber(b.date.value) * 1440 + m
  {
    SlotTimeOfDay(b.time.value);
    InstantOfTime(b, m);
  }

  /** With clock times, the comparator orders bookings by calendar date and,
      on the same date, by hour and minute. */
  lemma CompareIsDateThenTime(a: BookingDetails, b: BookingDetails)
    requires a.date.Some? && b.date.Some?
    requires a.time.Some? && IsClockTime(a.time.value)
    requires b.time.Some? && IsClockTime(b.time.value)
    ensures CompareBookings(a, b) < 0 <==>
      Before(a.date.value, b.date.value) ||
      (a.date == b.date && SlotMinutes(a.time.value) < SlotMinutes(b.time.value))
    ensures CompareBookings(a, b) == 0 <==> a.date == b.date && a.time == b.time
  {
    var s, t := SlotMinutes(a.time.value), SlotMinutes(b.time.value);
    var da, db := DayNumber(a.date.value), DayNumber(b.date.value);
    ClockInstant(a, s);
    ClockInstant(b, t);
    assert CompareBookings(a, b) == (da * 1440 + s) - (db * 1440 + t);
    InstantOrder(da, db, s, t);
    if da == db {
      DayNumberInjective(a.date.value, b.date.value);
    }
    if s == t {
      SameSlotMinutes(a.time.value, b.time.value);
    }
  }

  /** Two clock-time slots with the same minutes are the same string. */
  lemma SameSlotMinutes(x: string, y: string)
    requires IsClockTime(x) && IsClockTime(y)
    requires SlotMinutes(x) == SlotMinutes(y)
    ensures x == y
  {
    TwoDigits(x[..2]);
    TwoDigits(x[3..]);
    TwoDigits(y[..2]);
    TwoDigits(y[3..]);
    assert ParseDigits(x[..2]) == ParseDigits(y[..2]);
    assert ParseDigits(x[3..]) == ParseDigits(y[3..]);
    assert x[0] == y[0] && x[1] == y[1] && x[3] == y[3] && x[4] == y[4];
    assert forall i :: 0 <= i < 5 ==> x[i] == y[i];
  }

  // -------------------------------------------------------- comparator sort

  /** Every pair of bookings is in comparator order. */
  predicate BookingsSorted(s: seq<BookingDetails>) {
    forall i, j :: 0 <= i < j < |s| ==> CompareBookings(s[i], s[j]) <= 0
  }

  /** Stable insertion: x goes after every booking it does not precede. */
  function InsertBooking(s: seq<BookingDetails>, x: BookingDetails): (r: seq<BookingDetails>)
    ensures multiset(r) == multiset(s) + multiset{x}
  {
    if s == [] then [x]
    else
      var init, last := s[..|s| - 1], s[|s| - 1];
      InitLast(s);
      if CompareBookings(x, last) < 0 then InsertBooking(init, x) + [last] else s + [x]
  }

  /** Inserting a booking adds exactly its own slot claim. */
  lemma {:induction false} InsertBookingSlotCount(s: seq<BookingDetails>, x: BookingDetails, k: SlotKey)
    ensures SlotCount(InsertBooking(s, x), k) == SlotCount(s, k) + SlotCount([x], k)
  {
    if s == [] {
      assert [x] == [] + [x];
    } else {
      var init, last := s[..|s| - 1], s[|s| - 1];
      InitLast(s);
      if CompareBookings(x, last) < 0 {
        InsertBookingSlotCount(init, x, k);
        SlotCountAppend(InsertBooking(init, x), [last], k);
        SlotCountAppend(init, [last], k);
      } else {
        SlotCountAppend(s, [x], k);
      }
    }
  }

  /** Where insertion puts x: the list keeps its order, x precedes every
      booking after it, and it does not precede the booking just before it,
      so x goes after a booking it ties with. */
  lemma {:induction false} InsertBookingPosition(s: seq<BookingDetails>, x: BookingDetails) returns (k: int)
    ensures 0 <= k <= |s|
    ensures InsertBooking(s, x) == s[..k] + [x] + s[k..]
    ensures forall i :: k <= i < |s| ==> CompareBookings(x, s[i]) < 0
    ensures k > 0 ==> CompareBookings(x, s[k - 1]) >= 0
  {
    if s == [] {
      k := 0;
    } else {
      var init, last := s[..|s| - 1], s[|s| - 1];
      InitLast(s);
      if CompareBookings(x, last) < 0 {
        k := InsertBookingPosition(init, x);
        SpliceBeforeLast(init, last, x, k);
        PositionBeforeLast(init, last, x, k);
      } else {
        k := |s|;
        AppendAsSplice(s, x);
      }
    }
  }

  /** The insertion point found in the front still holds once the last
      booking, which x precedes, is put back. */
  lemma PositionBeforeLast(init: seq<BookingDetails>, last: BookingDetails, x: BookingDetails, k: int)
    requires 0 <= k <= |init|
    requires forall i :: k <= i < |init| ==> CompareBookings(x, init[i]) < 0
    requires k > 0 ==> CompareBookings(x, init[k - 1]) >= 0
    requires CompareBookings(x, last) < 0
    ensures forall i :: k <= i < |init + [last]| ==> CompareBookings(x, (init + [last])[i]) < 0
    ensures k > 0 ==> CompareBookings(x, (init + [last])[k - 1]) >= 0
  {
  }

  /** Among placeable bookings the comparator is transitive. */
  lemma CompareTransitive(a: BookingDetails, b: BookingDetails, c: BookingDetails)
    requires Keyed(a) && Keyed(b) && Keyed(c)
    requires CompareBookings(a, b) <= 0 && CompareBookings(b, c) <= 0
    ensures CompareBookings(a, c) <= 0
  {
  }

  /** A booking no earlier than every booking of a sorted list may follow it. */
  lemma SortedSnoc(r: seq<BookingDetails>, z: BookingDetails)
    requires BookingsSorted(r)
    requires forall y :: y in r ==> CompareBookings(y, z) <= 0
    ensures BookingsSorted(r + [z])
  {
    var t := r + [z];
    forall i, j | 0 <= i < j < |t| ensures CompareBookings(t[i], t[j]) <= 0 {
      if j == |r| {
        assert t[i] == r[i] && r[i] in r;
      } else {
        assert t[i] == r[i] && t[j] == r[j];
      }
    }
  }

  /** A booking no earlier than the last of a sorted list of placeable
      bookings is no earlier than any of them. */
  lemma AfterLastAfterAll(s: seq<BookingDetails>, x: BookingDetails)
    requires s != [] && forall b :: b in s ==> Keyed(b)
    requires Keyed(x) && BookingsSorted(s)
    requires CompareBookings(s[|s| - 1], x) <= 0
    ensures forall y :: y in s ==> CompareBookings(y, x) <= 0
  {
    var last := s[|s| - 1];
    assert last in s;
    forall y | y in s ensures CompareBookings(y, x) <= 0 {
      var k :| 0 <= k < |s| && s[k] == y;
      if k < |s| - 1 {
        CompareTransitive(y, last, x);
      }
    }
  }

  /** Inserting a booking earlier than z into a list of bookings no later than
      z leaves every booking no later than z. */
  lemma InsertedBeforeLast(init: seq<BookingDetails>, x: BookingDetails, z: BookingDetails)
    requires forall y :: y in init ==> CompareBookings(y, z) <= 0
    requires CompareBookings(x, z) < 0
    ensures forall y :: y in InsertBooking(init, x) ==> CompareBookings(y, z) <= 0
  {
    var inserted := InsertBooking(init, x);
    forall y | y in inserted ensures CompareBookings(y, z) <= 0 {
      assert y in multiset(inserted);
    }
  }

  /** Every booking of a sorted list but the last is no later than the last. */
  lemma SortedInitBeforeLast(init: seq<BookingDetails>, last: BookingDetails)
    requires BookingsSorted(init + [last])
    ensures BookingsSorted(init)
    ensures forall y :: y in init ==> CompareBookings(y, last) <= 0
  {
    var s := init + [last];
    forall i, j | 0 <= i < j < |init| ensures CompareBookings(init[i], init[j]) <= 0 {
      assert init[i] == s[i] && init[j] == s[j];
    }
    forall y | y in init ensures CompareBookings(y, last) <= 0 {
      var k :| 0 <= k < |init| && init[k] == y;
      assert s[k] == y && s[|init|] == last;
    }
  }

  /** The step of the insertion that goes before the last booking keeps the
      order, given that the insertion into the rest does. */
  lemma InsertBeforeLastSorted(s: seq<BookingDetails>, x: BookingDetails)
    requires s != [] && BookingsSorted(s)
    requires CompareBookings(x, s[|s| - 1]) < 0
    requires BookingsSorted(InsertBooking(s[..|s| - 1], x))
    ensures BookingsSorted(InsertBooking(s, x))
  {
    var init, last := s[..|s| - 1], s[|s| - 1];
    InitLast(s);
    assert InsertBooking(s, x) == InsertBooking(init, x) + [last];
    SortedInitBeforeLast(init, last);
    InsertedBeforeLast(init, x, last);
    SortedSnoc(InsertBooking(init, x), last);
  }

  /** The step of the insertion that appends after the last booking keeps the
      order. */
  lemma InsertAfterLastSorted(s: seq<BookingDetails>, x: BookingDetails)
    requires s != [] && forall b :: b in s ==> Keyed(b)
    requires Keyed(x) && BookingsSorted(s)
    requires CompareBookings(x, s[|s| - 1]) >= 0
    ensures BookingsSorted(InsertBooking(s, x))
  {
    var init, last := s[..|s| - 1], s[|s| - 1];
    InitLast(s);
    assert InsertBooking(s, x) == s + [x];
    CompareAntisymmetric(x, last);
    AfterLastAfterAll(s, x);
    SortedSnoc(s, x);
  }

  /** Inserting a placeable booking into a sorted list of placeable bookings
      keeps it sorted. */
  lemma {:induction false} InsertBookingSorted(s: seq<BookingDetails>, x: BookingDetails)
    requires forall b :: b in s ==> Keyed(b)
    requires Keyed(x) && BookingsSorted(s)
    ensures BookingsSorted(InsertBooking(s, x))
  {
    if s != [] {
      var init, last := s[..|s| - 1], s[|s| - 1];
      InitLast(s);
      if CompareBookings(x, last) < 0 {
        SortedInitBeforeLast(init, last);
        InsertBookingSorted(init, x);
        InsertBeforeLastSorted(s, x);
      } else {
        InsertAfterLastSorted(s, x);
      }
    }
  }

  /** `list.sort(compare)`, as a stable insertion sort: the same bookings in
      comparator order. */
  function SortBookings(s: seq<BookingDetails>): (r: seq<BookingDetails>)
    ensures |r| == |s| && multiset(r) == multiset(s)
  {
    if s == [] then []
    else
      var init, last := s[..|s| - 1], s[|s| - 1];
      InitLast(s);
      var r := InsertBooking(SortBookings(init), last);
      assert |r| == |s| by {
        assert |multiset(r)| == |multiset(s)|;
      }
      r
  }

  /** Sorting claims every slot as often as before. */
  lemma {:induction false} SortBookingsSlotCount(s: seq<BookingDetails>, k: SlotKey)
    ensures SlotCount(SortBookings(s), k) == SlotCount(s, k)
  {
    if s != [] {
      var init, last := s[..|s| - 1], s[|s| - 1];
      InitLast(s);
      SortBookingsSlotCount(init, k);
      InsertBookingSlotCount(SortBookings(init), last, k);
      SlotCountAppend(init, [last], k);
    }
  }

  /** When every booking can be placed, the sorted list is in comparator order. */
  lemma {:induction false} SortBookingsSorted(s: seq<BookingDetails>)
    requires forall b :: b in s ==> Keyed(b)
    ensures BookingsSorted(SortBookings(s))
  {
    if s != [] {
      var init, last := s[..|s| - 1], s[|s| - 1];
      InitLast(s);
      assert last in s;
      SortBookingsSorted(init);
      var sorted := SortBookings(init);
      forall b | b in sorted ensures Keyed(b) {
        assert b in multiset(sorted);
        assert b in init;
      }
      InsertBookingSorted(sorted, last);
    }
  }

  /** The booking appended on confirm: the current details under a new id. */
  function NewBooking(details: BookingDetails, bookingId: int): (b: BookingDetails)
    ensures b.bookingId == Some(bookingId)
    ensures b.(bookingId := details.bookingId) == details
  {
    details.(bookingId := Some(bookingId))
  }

  /** `[...prev, newBooking].sort(compare)`: exactly one booking more, every
      earlier booking kept, and slot claims grow only by the new booking's. */
  function ConfirmedBookings(bookings: seq<BookingDetails>, details: BookingDetails, bookingId: int): (r: seq<BookingDetails>)
    ensures |r| == |bookings| + 1
    ensures multiset(r) == multiset(bookings) + multiset{NewBooking(details, bookingId)}
    ensures forall k :: SlotCount(r, k) == SlotCount(bookings, k) + (if Occupies(details, k) then 1 else 0)
  {
    var b := NewBooking(details, bookingId);
    var r := SortBookings(bookings + [b]);
    assert forall k :: SlotCount(r, k) == SlotCount(bookings, k) + (if Occupies(details, k) then 1 else 0) by {
      forall k ensures SlotCount(r, k) == SlotCount(bookings, k) + (if Occupies(details, k) then 1 else 0) {
        SortBookingsSlotCount(bookings + [b], k);
        SlotCountAppend(bookings, [b], k);
        assert [b][..0] == [];
      }
    }
    r
  }

  // ------------------------------------------------ partial-details update

  /** `Partial<BookingDetails>`: None means the field is not supplied. */
  datatype DetailsPatch = DetailsPatch(
    bookingId: Option<Option<int>>,
    barber: Option<Option<Barber>>,
    services: Option<seq<Service>>,
    date: Option<Option<CalendarDate>>,
    time: Option<Option<string>>,
    userInfo: Option<UserInfo>)

  function Pick<T>(supplied: Option<T>, current: T): T {
    if supplied.Some? then supplied.value else current
  }

  /** `{ ...prev, ...details }`: supplied fields overwrite, the others stay. */
  function ApplyPatch(prev: BookingDetails, patch: DetailsPatch): (r: BookingDetails)
    ensures patch.bookingId.Some? ==> r.bookingId == patch.bookingId.value
    ensures patch.bookingId.None? ==> r.bookingId == prev.bookingId
    ensures patch.barber.Some? ==> r.barber == patch.barber.value
    ensures patch.barber.None? ==> r.barber == prev.barber
    ensures patch.services.Some? ==> r.services == patch.services.value
    ensures patch.services.None? ==> r.services == prev.services
    ensures patch.date.Some? ==> r.date == patch.date.value
    ensures patch.date.None? ==> r.date == prev.date
    ensures patch.time.Some? ==> r.time == patch.time.value
    ensures patch.time.None? ==> r.time == prev.time
    ensures patch.userInfo.Some? ==> r.userInfo == patch.userInfo.value
    ensures patch.userInfo.None? ==> r.userInfo == prev.userInfo
  {
    BookingDetails(
      Pick(patch.bookingId, prev.bookingId),
      Pick(patch.barber, prev.barber),
      Pick(patch.services, prev.services),
      Pick(patch.date, prev.date),
      Pick(patch.time, prev.time),
      Pick(patch.userInfo, prev.userInfo))
  }

  function PickLater<T>(first: Option<T>, second: Option<T>): Option<T> {
    if second.Some? then second else first
  }

  /** `{ ...p, ...q }` on two partial details. */
  function MergePatches(p: DetailsPatch, q: DetailsPatch): DetailsPatch {
    DetailsPatch(
      PickLater(p.bookingId, q.bookingId), PickLater(p.barber, q.barber),
      PickLater(p.services, q.services), PickLater(p.date, q.date),
      PickLater(p.time, q.time), PickLater(p.userInfo, q.userInfo))
  }

  const NoChange := DetailsPatch(None, None, None, None, None, None)

  /** Two updates in a row are one update with the merged fields; an empty
      update changes nothing; repeating an update changes nothing more. */
  lemma PatchLaws(d: BookingDetails, p: DetailsPatch, q: DetailsPatch)
    ensures ApplyPatch(ApplyPatch(d, p), q) == ApplyPatch(d, MergePatches(p, q))
    ensures ApplyPatch(d, NoChange) == d
    ensures ApplyPatch(ApplyPatch(d, p), p) == ApplyPatch(d, p)
  {
  }

  /** The update sent by the date-time step: `{ date, time }`. */
  function DateTimePatch(date: CalendarDate, time: string): DetailsPatch {
    NoChange.(date := Some(Some(date)), time := Some(Some(time)))
  }

  // ----------------------------------------------------------- initial data

  const InitialServices: seq<Service> := [
    Service(1, LocalizedName("Haircut", "اصلاح مو"), 250000, 30),
    Service(2, LocalizedName("Beard Trim", "اصلاح ریش"), 150000, 20),
    Service(3, LocalizedName("Hair Color", "رنگ مو"), 400000, 60),
    Service(4, LocalizedName("Facial Mask", "ماسک صورت"), 180000, 25),
    Service(5, LocalizedName("Haircut & Beard", "اصلاح مو و ریش"), 350000, 50),
    Service(6, LocalizedName("VIP Package", "پکیج ویژه"), 700000, 90)
  ]

  const InitialBarbers: seq<Barber> := [
    Barber(1, LocalizedName("Amir", "امیر"), Some("https://i.pravatar.cc/150?u=amir")),
    Barber(2, LocalizedName("Reza", "رضا"), Some("https://i.pravatar.cc/150?u=reza")),
    Barber(3, LocalizedName("Sina", "سینا"), Some("https://i.pravatar.cc/150?u=sina"))
  ]

  /** Saturday to Thursday, ten hourly slots with a break at 13:00, no overrides. */
  const DefaultSchedule := BarberSchedule(
    [6, 0, 1, 2, 3, 4],
    ["09:00", "10:00", "11:00", "12:00", "14:00", "15:00", "16:00", "17:00", "18:00", "19:00"],
    map[])

  /** One default schedule per initial barber. */
  function InitialSchedules(): (m: map<int, BarberSchedule>)
    ensures forall b :: b in InitialBarbers ==> b.id in m
  {
    map b | b in InitialBarbers :: b.id := DefaultSchedule
  }

  /** The booking being built when the app opens and after a reset. */
  const EmptyDetails := BookingDetails(None, None, [], None, None, UserInfo("", "", Some("")))

  /** The initial schedules belong to exactly the initial barbers, each the default. */
  lemma InitialSchedulesFacts()
    ensures InitialSchedules().Keys == {1, 2, 3}
    ensures forall b :: b in InitialBarbers ==> InitialSchedules()[b.id] == DefaultSchedule
  {
    var m := InitialSchedules();
    assert InitialBarbers[0].id == 1 && InitialBarbers[1].id == 2 && InitialBarbers[2].id == 3;
    assert forall b :: b in InitialBarbers ==> b.id in {1, 2, 3};
    assert InitialBarbers[0] in InitialBarbers && InitialBarbers[1] in InitialBarbers && InitialBarbers[2] in InitialBarbers;
  }

  /** The default week is open every day but Friday (weekday 5). */
  lemma DefaultWeekClosesFriday()
    ensures forall w :: 0 <= w < 7 ==> (w in DefaultSchedule.defaultWorkingDays <==> w != 5)
  {
  }

  /** The default slots are ascending in string order, hence without repeats. */
  lemma DefaultSlotsAscending()
    ensures StrictlySorted(DefaultSchedule.defaultSlots)
  {
    var slots := DefaultSchedule.defaultSlots;
    forall i | 0 <= i < |slots| - 1 ensures StrLess(slots[i], slots[i + 1]) {
      var a, b := slots[i], slots[i + 1];
      assert a[0] < b[0] || (a[0] == b[0] && a[1] < b[1]);
      if a[0] == b[0] {
        assert a[1..][0] == a[1] && b[1..][0] == b[1];
      }
    }
    ChainStrictlySorted(slots);
  }

  /** A slot `0D:00` or `1D:00` is a clock time on the hour. */
  lemma MorningOrDaySlotOnTheHour(t: string)
    requires IsSlotFormat(t) && t[3] == '0' && t[4] == '0' && (t[0] == '0' || t[0] == '1')
    ensures IsClockTime(t) && SlotMinutes(t) % 60 == 0
  {
    TwoDigits(t[..2]);
    TwoDigits(t[3..]);
    assert ParseDigits(t[3..]) == 0;
  }

  /** The default slots are real clock times, on the hour. */
  lemma DefaultSlotsAreClockTimes()
    ensures forall t :: t in DefaultSchedule.defaultSlots ==> IsClockTime(t) && SlotMinutes(t) % 60 == 0
  {
    var slots := DefaultSchedule.defaultSlots;
    forall i | 0 <= i < |slots| ensures IsClockTime(slots[i]) && SlotMinutes(slots[i]) % 60 == 0 {
      MorningOrDaySlotOnTheHour(slots[i]);
    }
  }

  /** The initial services and barbers have distinct ids. */
  lemma InitialIdsDistinct()
    ensures NoDup(Ids(InitialServices, (s: Service) => s.id))
    ensures NoDup(Ids(InitialBarbers, (b: Barber) => b.id))
  {
    var serviceIds := Ids(InitialServices, (s: Service) => s.id);
    assert serviceIds == [1, 2, 3, 4, 5, 6];
    var barberIds := Ids(InitialBarbers, (b: Barber) => b.id);
    assert barberIds == [1, 2, 3];
  }

  // -------------------------------------------------------------- app state

  /** The state of `App`. */
  class BookingApp {
    var currentStep: int
    var allBookings: seq<BookingDetails>
    var isAdminMode: bool
    var isPasswordModalOpen: bool
    var adminPassword: string
    var bookingDetails: BookingDetails
    var barberSchedules: map<int, BarberSchedule>
    var services: seq<Service>
    var barbers: seq<Barber>

    constructor ()
      ensures currentStep == 1 && allBookings == []
      ensures !isAdminMode && !isPasswordModalOpen && adminPassword == "admin123"
      ensures bookingDetails == EmptyDetails
      ensures barberSchedules == InitialSchedules()
      ensures services == InitialServices && barbers == InitialBarbers
    {
      currentStep := 1;
      allBookings := [];
      isAdminMode, isPasswordModalOpen := false, false;
      adminPassword := "admin123";
      bookingDetails := EmptyDetails;
      barberSchedules := InitialSchedules();
      services, barbers := InitialServices, InitialBarbers;
    }

    /** The schedule handed to the date-time step: the selected barber's, if
        a barber is selected and has one. */
    function SelectedSchedule(): (r: Option<BarberSchedule>)
      reads this
      ensures r.Some? <==> bookingDetails.barber.Some? && bookingDetails.barber.value.id in barberSchedules
      ensures r.Some? ==> r.value == barberSchedules[bookingDetails.barber.value.id]
    {
      if bookingDetails.barber.Some? && bookingDetails.barber.value.id in barberSchedules
      then Some(barberSchedules[bookingDetails.barber.value.id])
      else None
    }

    /** `handleAdminToggle`: leaves admin mode, or opens the password prompt. */
    method HandleAdminToggle()
      modifies this
      ensures old(isAdminMode) ==> !isAdminMode && isPasswordModalOpen == old(isPasswordModalOpen)
      ensures !old(isAdminMode) ==> !isAdminMode && isPasswordModalOpen
      ensures adminPassword == old(adminPassword) && allBookings == old(allBookings)
      ensures currentStep == old(currentStep) && bookingDetails == old(bookingDetails)
      ensures barberSchedules == old(barberSchedules) && services == old(services) && barbers == old(barbers)
    {
      if isAdminMode {
        isAdminMode := false;
      } else {
        isPasswordModalOpen := true;
      }
    }

    /** `handlePasswordSubmit`: accepted iff the input is the stored password;
        only then does admin mode open and the prompt close. */
    method HandlePasswordSubmit(password: string) returns (accepted: bool)
      modifies this
      ensures accepted <==> password == old(adminPassword)
      ensures accepted ==> isAdminMode && !isPasswordModalOpen
      ensures !accepted ==> isAdminMode == old(isAdminMode) && isPasswordModalOpen == old(isPasswordModalOpen)
      ensures adminPassword == old(adminPassword) && allBookings == old(allBookings)
      ensures currentStep == old(currentStep) && bookingDetails == old(bookingDetails)
      ensures barberSchedules == old(barberSchedules) && services == old(services) && barbers == old(barbers)
    {
      accepted := password == adminPassword;
      if accepted {
        isAdminMode := true;
        isPasswordModalOpen := false;
      }
    }

    /** `handleNextStep`. */
    method HandleNextStep()
      modifies this
      ensures currentStep == old(currentStep) + 1
      ensures allBookings == old(allBookings) && bookingDetails == old(bookingDetails)
      ensures isAdminMode == old(isAdminMode) && adminPassword == old(adminPassword)
      ensures isPasswordModalOpen == old(isPasswordModalOpen)
      ensures barberSchedules == old(barberSchedules) && services == old(services) && barbers == old(barbers)
    {
      currentStep := currentStep + 1;
    }

    /** `handlePrevStep`. */
    method HandlePrevStep()
      modifies this
      ensures currentStep == old(currentStep) - 1
      ensures allBookings == old(allBookings) && bookingDetails == old(bookingDetails)
      ensures isAdminMode == old(isAdminMode) && adminPassword == old(adminPassword)
      ensures isPasswordModalOpen == old(isPasswordModalOpen)
      ensures barberSchedules == old(barberSchedules) && services == old(services) && barbers == old(barbers)
    {
      currentStep := currentStep - 1;
    }

    /** `updateBookingDetails`. */
    method UpdateBookingDetails(patch: DetailsPatch)
      modifies this
      ensures bookingDetails == ApplyPatch(old(bookingDetails), patch)
      ensures currentStep == old(currentStep) && allBookings == old(allBookings)
      ensures isAdminMode == old(isAdminMode) && adminPassword == old(adminPassword)
      ensures isPasswordModalOpen == old(isPasswordModalOpen)
      ensures barberSchedules == old(barberSchedules) && services == old(services) && barbers == old(barbers)
    {
      bookingDetails := ApplyPatch(bookingDetails, patch);
    }

    /** Step 1's `onBarberSelect`: `updateBookingDetails({ barber })`. */
    method SelectBarber(barber: Barber)
      modifies this
      ensures bookingDetails == old(bookingDetails).(barber := Some(barber))
      ensures currentStep == old(currentStep) && allBookings == old(allBookings)
      ensures isAdminMode == old(isAdminMode) && adminPassword == old(adminPassword)
      ensures isPasswordModalOpen == old(isPasswordModalOpen)
      ensures barberSchedules == old(barberSchedules) && services == old(services) && barbers == old(barbers)
    {
      UpdateBookingDetails(NoChange.(barber := Some(Some(barber))));
    }

    /** Step 3's `onDateTimeSelect`: `updateBookingDetails({ date, time })`. */
    method SelectDateTime(date: CalendarDate, time: string)
      modifies this
      ensures bookingDetails == old(bookingDetails).(date := Some(date), time := Some(time))
      ensures currentStep == old(currentStep) && allBookings == old(allBookings)
      ensures isAdminMode == old(isAdminMode) && adminPassword == old(adminPassword)
      ensures isPasswordModalOpen == old(isPasswordModalOpen)
      ensures barberSchedules == old(barberSchedules) && services == old(services) && barbers == old(barbers)
    {
      UpdateBookingDetails(DateTimePatch(date, time));
    }

    /** `handleConfirmBooking`, with `Date.now()` passed in as `now`: the
        booking list gains the current details under that id and is sorted,
        and the step advances to the confirmation. */
    method HandleConfirmBooking(now: int)
      modifies this
      ensures allBookings == ConfirmedBookings(old(allBookings), old(bookingDetails), now)
      ensures currentStep == old(currentStep) + 1
      ensures bookingDetails == old(bookingDetails)
      ensures isAdminMode == old(isAdminMode) && adminPassword == old(adminPassword)
      ensures isPasswordModalOpen == old(isPasswordModalOpen)
      ensures barberSchedules == old(barberSchedules) && services == old(services) && barbers == old(barbers)
    {
      allBookings := ConfirmedBookings(allBookings, bookingDetails, now);
      HandleNextStep();
    }

    /** Step 2's `onServiceSelect`: the selection toggled by the service selector. */
    method ToggleSelectedService(service: Service)
      modifies this
      ensures bookingDetails == old(bookingDetails).(services := ToggleService(old(bookingDetails).services, service))
      ensures currentStep == old(currentStep) && allBookings == old(allBookings)
      ensures isAdminMode == old(isAdminMode) && adminPassword == old(adminPassword)
      ensures isPasswordModalOpen == old(isPasswordModalOpen)
      ensures barberSchedules == old(barberSchedules) && services == old(services) && barbers == old(barbers)
    {
      UpdateBookingDetails(NoChange.(services := Some(ToggleService(bookingDetails.services, service))));
    }

    /** Step 4's `handleBlur`: leaving a field of the customer form hands the
        form's current contents to the app, validated or not. */
    method BlurUserInfo(info: UserInfo)
      modifies this
      ensures bookingDetails == old(bookingDetails).(userInfo := info)
      ensures currentStep == old(currentStep) && allBookings == old(allBookings)
      ensures isAdminMode == old(isAdminMode) && adminPassword == old(adminPassword)
      ensures isPasswordModalOpen == old(isPasswordModalOpen)
      ensures barberSchedules == old(barberSchedules) && services == old(services) && barbers == old(barbers)
    {
      UpdateBookingDetails(NoChange.(userInfo := Some(info)));
    }

    /** Step 4: `validateAndProceed` of the customer form, then
        `onUserInfoChange` and `onNext` when it proceeds. */
    method SubmitUserInfo(info: UserInfo) returns (v: Validation)
      modifies this
      ensures v == ValidateAndProceed(info)
      ensures v.handedOver.Some? ==>
        bookingDetails == old(bookingDetails).(userInfo := info) && currentStep == old(currentStep) + 1
      ensures v.handedOver.None? ==>
        bookingDetails == old(bookingDetails) && currentStep == old(currentStep)
      ensures allBookings == old(allBookings)
      ensures isAdminMode == old(isAdminMode) && adminPassword == old(adminPassword)
      ensures isPasswordModalOpen == old(isPasswordModalOpen)
      ensures barberSchedules == old(barberSchedules) && services == old(services) && barbers == old(barbers)
    {
      v := ValidateAndProceed(info);
      if v.handedOver.Some? {
        UpdateBookingDetails(NoChange.(userInfo := Some(v.handedOver.value)));
        HandleNextStep();
      }
    }

    /** `resetBooking`: a fresh booking, back at the first step. */
    method ResetBooking()
      modifies this
      ensures bookingDetails == EmptyDetails && currentStep == 1
      ensures allBookings == old(allBookings)
      ensures isAdminMode == old(isAdminMode) && adminPassword == old(adminPassword)
      ensures isPasswordModalOpen == old(isPasswordModalOpen)
      ensures barberSchedules == old(barberSchedules) && services == old(services) && barbers == old(barbers)
    {
      bookingDetails := EmptyDetails;
      currentStep := 1;
    }
  }
}
