/** The app's records (types.ts), with `Date` replaced by a calendar date and
    `null` / an absent optional field by `None`. */
module Types {
  import opened Wrappers
  import opened Civil

  datatype LocalizedName = LocalizedName(en: string, fa: string)

  datatype Service = Service(id: int, name: LocalizedName, price: int, duration: int)

  datatype UserInfo = UserInfo(name: string, phone: string, photo: Option<string>)

  datatype Barber = Barber(id: int, name: LocalizedName, imageUrl: Option<string>)

  /** `DailyScheduleOverride`: replaces a barber's weekly default on one date. */
  datatype DayOverride = DayOverride(isWorking: bool, slots: seq<string>)

  /** `BarberSchedule`: weekdays 0 (Sunday) .. 6 (Saturday), the slots of a
      default working day, and overrides keyed by `YYYY-MM-DD`. */
  datatype BarberSchedule = BarberSchedule(
    defaultWorkingDays: seq<int>,
    defaultSlots: seq<string>,
    overrides: map<string, DayOverride>)

  /** `BookingDetails`: both the booking being built and a confirmed booking. */
  datatype BookingDetails = BookingDetails(
    bookingId: Option<int>,
    barber: Option<Barber>,
    services: seq<Service>,
    date: Option<CalendarDate>,
    time: Option<string>,
    userInfo: UserInfo)

  /** One bookable slot: a barber (by id), a calendar day and a time. */
  datatype SlotKey = SlotKey(barberId: int, date: CalendarDate, time: string)

  /** The booking claims the slot: same barber id, same calendar day, same time. */
  predicate Occupies(b: BookingDetails, k: SlotKey) {
    b.barber.Some? && b.barber.value.id == k.barberId &&
    b.date == Some(k.date) && b.time == Some(k.time)
  }

  /** How many bookings of the list claim slot k. */
  function SlotCount(bookings: seq<BookingDetails>, k: SlotKey): (n: nat)
    ensures n <= |bookings|
    ensures n > 0 <==> exists b :: b in bookings && Occupies(b, k)
  {
    if bookings == [] then 0
    else
      var rest := bookings[..|bookings| - 1];
      var last := bookings[|bookings| - 1];
      assert bookings == rest + [last];
      SlotCount(rest, k) + (if Occupies(last, k) then 1 else 0)
  }

  lemma {:induction false} SlotCountAppend(a: seq<BookingDetails>, b: seq<BookingDetails>, k: SlotKey)
    ensures SlotCount(a + b, k) == SlotCount(a, k) + SlotCount(b, k)
    decreases |b|
  {
    if b != [] {
      var rest := b[..|b| - 1];
      assert a + b == (a + rest) + [b[|b| - 1]];
      assert (a + b)[..|a + b| - 1] == a + rest;
      SlotCountAppend(a, rest, k);
    } else {
      assert a + b == a;
    }
  }

  /** At most one booking per (barber, date, time): the guarantee the booking
      flow is meant to keep. */
  ghost predicate OneBookingPerSlot(bookings: seq<BookingDetails>) {
    forall k :: SlotCount(bookings, k) <= 1
  }
}
