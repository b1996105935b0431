/** Properties that tie the components together: the customer's calendar and
    the admin's day editor read a schedule the same way, and what confirming
    or deleting a booking does to the rule of one booking per slot. */
module BookingInvariants {
  import opened Wrappers
  import opened Seqs
  import opened Text
  import opened Civil
  import opened Types
  import opened DateTimePicker
  import opened AdminPanel
  import opened App

  // ------------------------------------------- one reading of a schedule

  /** The candidate slots of the customer's picker are those of the admin's
      effective day when it is a working day, and none otherwise. */
  lemma CandidatesFollowEffectiveDay(schedule: BarberSchedule, date: CalendarDate)
    ensures var day := EffectiveDay(schedule, date);
      Candidates(schedule, date) == if day.isWorking then day.slots else []
  {
  }

  /** A calendar day is disabled exactly when it is past or the admin's
      effective day is not a working day. */
  lemma DisabledFollowsEffectiveDay(day: CalendarDate, today: CalendarDate, schedule: BarberSchedule)
    ensures IsDayDisabled(day, today, schedule) <==> Before(day, today) || !EffectiveDay(schedule, day).isWorking
  {
  }

  /** A day the calendar disables for not working offers no time at all. */
  lemma NonWorkingDayHasNoSlots(day: CalendarDate, today: CalendarDate, schedule: BarberSchedule,
                                barber: Barber, bookings: seq<BookingDetails>)
    requires IsDayDisabled(day, today, schedule) && !Before(day, today)
    ensures AvailableTimeSlots(Some(day), Some(schedule), Some(barber), bookings) == []
  {
    CandidatesFollowEffectiveDay(schedule, day);
    assert Candidates(schedule, day) == [];
  }

  /** After the admin stores an override for a date, the customer's candidates
      for that date are exactly the override's slots, or none on a day off;
      every other date keeps its candidates. */
  lemma OverrideDrivesCandidates(schedules: map<int, BarberSchedule>, barberId: int,
                                 date: CalendarDate, override: DayOverride, other: CalendarDate)
    requires barberId in schedules
    ensures var updated := SetOverride(schedules, barberId, DateKey(date), override)[barberId];
      Candidates(updated, date) == (if override.isWorking then override.slots else []) &&
      (other != date ==> Candidates(updated, other) == Candidates(schedules[barberId], other))
  {
    var updated := SetOverride(schedules, barberId, DateKey(date), override)[barberId];
    OverrideThenEffectiveDay(schedules, barberId, date, override);
    CandidatesFollowEffectiveDay(updated, date);
    if other != date {
      OverrideLeavesOtherDates(schedules, barberId, date, override, other);
      CandidatesFollowEffectiveDay(updated, other);
      CandidatesFollowEffectiveDay(schedules[barberId], other);
    }
  }

  /** Slot lists kept by the editor (ascending, no repeats) give ascending
      offered times without repeats. */
  lemma AvailabilityStaysAscending(date: CalendarDate, schedule: BarberSchedule, barber: Barber,
                                   bookings: seq<BookingDetails>)
    requires StrictlySorted(Candidates(schedule, date))
    ensures StrictlySorted(AvailableTimeSlots(Some(date), Some(schedule), Some(barber), bookings))
  {
    SubsequenceStrictlySorted(AvailableTimeSlots(Some(date), Some(schedule), Some(barber), bookings),
                              Candidates(schedule, date));
  }

  // ------------------------------------------------- one booking per slot

  /** The slot a completed booking claims. */
  function SlotOf(details: BookingDetails): (k: SlotKey)
    requires details.barber.Some? && details.date.Some? && details.time.Some?
    ensures Occupies(details, k)
    ensures forall other :: Occupies(details, other) ==> other == k
  {
    SlotKey(details.barber.value.id, details.date.value, details.time.value)
  }

  /** Confirming a booking whose time was offered by the picker, for the same
      barber, date and bookings, keeps at most one booking per slot. */
  lemma ConfirmKeepsOneBookingPerSlot(bookings: seq<BookingDetails>, details: BookingDetails,
                                      schedule: BarberSchedule, bookingId: int)
    requires OneBookingPerSlot(bookings)
    requires details.barber.Some? && details.date.Some? && details.time.Some?
    requires details.time.value in AvailableTimeSlots(details.date, Some(schedule), details.barber, bookings)
    ensures OneBookingPerSlot(ConfirmedBookings(bookings, details, bookingId))
  {
    var r := ConfirmedBookings(bookings, details, bookingId);
    forall k ensures SlotCount(r, k) <= 1 {
      if Occupies(details, k) {
        assert k == SlotOf(details);
        assert SlotCount(bookings, k) == 0;
      }
    }
  }

  /** A booking without a barber, date or time claims no slot, so confirming
      it keeps at most one booking per slot. */
  lemma ConfirmIncompleteKeepsOneBookingPerSlot(bookings: seq<BookingDetails>, details: BookingDetails,
                                                bookingId: int)
    requires OneBookingPerSlot(bookings)
    requires details.barber.None? || details.date.None? || details.time.None?
    ensures OneBookingPerSlot(ConfirmedBookings(bookings, details, bookingId))
  {
    var r := ConfirmedBookings(bookings, details, bookingId);
    forall k ensures SlotCount(r, k) <= 1 {
      assert !Occupies(details, k);
    }
  }

  /** Confirm does not look for conflicts: a booking for a slot that is
      already taken is still added, and the slot is then claimed twice. */
  lemma ConfirmDoesNotCheckConflicts(bookings: seq<BookingDetails>, details: BookingDetails,
                                     taken: BookingDetails, bookingId: int)
    requires details.barber.Some? && details.date.Some? && details.time.Some?
    requires taken in bookings && Occupies(taken, SlotOf(details))
    ensures SlotCount(ConfirmedBookings(bookings, details, bookingId), SlotOf(details)) >= 2
    ensures !OneBookingPerSlot(ConfirmedBookings(bookings, details, bookingId))
  {
    var k := SlotOf(details);
    assert SlotCount(bookings, k) >= 1;
  }

  /** Once confirmed, the booked time is no longer offered for that barber
      and date. */
  lemma ConfirmedTimeIsTaken(bookings: seq<BookingDetails>, details: BookingDetails,
                             schedule: BarberSchedule, bookingId: int)
    requires details.barber.Some? && details.date.Some? && details.time.Some?
    ensures details.time.value !in
      AvailableTimeSlots(details.date, Some(schedule), details.barber, ConfirmedBookings(bookings, details, bookingId))
  {
    assert SlotCount(ConfirmedBookings(bookings, details, bookingId), SlotOf(details)) >= 1;
  }

  /** Filtering bookings out never adds a claim on a slot. */
  lemma {:induction false} FilterClaimsNoMore(bookings: seq<BookingDetails>, id: int, k: SlotKey)
    ensures SlotCount(WithoutBookingId(bookings, id), k) <= SlotCount(bookings, k)
  {
    if bookings != [] {
      var first, rest := bookings[0], bookings[1..];
      assert bookings == [first] + rest;
      FilterClaimsNoMore(rest, id, k);
      SlotCountAppend([first], rest, k);
      if first.bookingId != Some(id) {
        SlotCountAppend([first], WithoutBookingId(rest, id), k);
      }
    }
  }

  /** Deleting bookings keeps at most one booking per slot. */
  lemma DeleteKeepsOneBookingPerSlot(bookings: seq<BookingDetails>, bookingId: Option<int>)
    requires OneBookingPerSlot(bookings)
    ensures OneBookingPerSlot(HandleDelete(bookings, bookingId))
  {
    if bookingId.Some? && bookingId.value != 0 {
      forall k ensures SlotCount(HandleDelete(bookings, bookingId), k) <= 1 {
        FilterClaimsNoMore(bookings, bookingId.value, k);
      }
    }
  }

  /** Deleting the booking that holds a slot offers its time again (when the
      slot is a candidate that day). */
  lemma DeleteFreesSlot(bookings: seq<BookingDetails>, bookingId: int, schedule: BarberSchedule,
                        barber: Barber, date: CalendarDate, time: string)
    requires bookingId != 0 && time in Candidates(schedule, date)
    requires forall b :: b in bookings && Occupies(b, SlotKey(barber.id, date, time)) ==> b.bookingId == Some(bookingId)
    ensures time in AvailableTimeSlots(Some(date), Some(schedule), Some(barber), HandleDelete(bookings, Some(bookingId)))
  {
    var k := SlotKey(barber.id, date, time);
    var rest := HandleDelete(bookings, Some(bookingId));
    forall b | b in rest ensures !Occupies(b, k) {
    }
  }

  // ------------------------------------------------ the shop's default week

  /** With the initial schedule, Friday 7 June 2024 is closed and the next
      day, a Saturday, offers the ten default slots. */
  lemma DefaultWeekExample()
    ensures DayOfWeek(Date(2024, 6, 7)) == 5 && DayOfWeek(Date(2024, 6, 8)) == 6
    ensures Candidates(DefaultSchedule, Date(2024, 6, 7)) == []
    ensures Candidates(DefaultSchedule, Date(2024, 6, 8)) == DefaultSchedule.defaultSlots
  {
    assert DayNumber(Date(2024, 6, 7)) == 739043;
  }
}
