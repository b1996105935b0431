/** components/AdminPanel.tsx: deleting bookings, the per-day schedule
    editor (effective day, add / remove a slot, storing an override), id
    assignment when a service or barber is saved, and the password change. */
module AdminPanel {
  import opened Wrappers
  import opened Seqs
  import opened Text
  import opened Civil
  import opened Types
  import opened DateTimePicker

  // --------------------------------------------------------- booking viewer

  /** `prev.filter(b => b.bookingId !== id)`. */
  function WithoutBookingId(bookings: seq<BookingDetails>, id: int): (r: seq<BookingDetails>)
    ensures IsSubsequence(r, bookings)
    ensures forall b :: b in r <==> b in bookings && b.bookingId != Some(id)
  {
    if bookings == [] then []
    else if bookings[0].bookingId == Some(id) then WithoutBookingId(bookings[1..], id)
    else
      assert bookings == [bookings[0]] + bookings[1..];
      [bookings[0]] + WithoutBookingId(bookings[1..], id)
  }

  /** `handleDelete` once the confirmation dialog is accepted: a missing or zero
      id does nothing; otherwise exactly the bookings with that id go, and the
      rest keep their order. */
  function HandleDelete(bookings: seq<BookingDetails>, bookingId: Option<int>): (r: seq<BookingDetails>)
    ensures bookingId.None? || bookingId == Some(0) ==> r == bookings
    ensures IsSubsequence(r, bookings)
    ensures bookingId.Some? && bookingId.value != 0 ==>
      forall b :: b in r <==> b in bookings && b.bookingId != bookingId
  {
    if bookingId.None? || bookingId.value == 0 then
      SubsequenceRefl(bookings);
      bookings
    else WithoutBookingId(bookings, bookingId.value)
  }

  // ------------------------------------------------------- schedule editor

  /** `currentSchedule` of `DayScheduleEditor`: the stored override for the
      date if there is one, else the weekly default (working iff the weekday is
      a default working day). */
  function EffectiveDay(schedule: BarberSchedule, date: CalendarDate): DayOverride {
    var dateString := DateKey(date);
    var dayOfWeek := DayOfWeek(date);
    if dateString in schedule.overrides then schedule.overrides[dateString]
    else DayOverride(dayOfWeek in schedule.defaultWorkingDays, schedule.defaultSlots)
  }

  /** `newSchedules[barberId].overrides[dateString] = override` on a copy of
      the schedules: only that one entry of that one barber changes. */
  function SetOverride(schedules: map<int, BarberSchedule>, barberId: int, dateString: string,
                       override: DayOverride): (r: map<int, BarberSchedule>)
    requires barberId in schedules
    ensures r.Keys == schedules.Keys
    ensures forall id :: id in schedules && id != barberId ==> r[id] == schedules[id]
    ensures r[barberId].defaultWorkingDays == schedules[barberId].defaultWorkingDays
    ensures r[barberId].defaultSlots == schedules[barberId].defaultSlots
    ensures r[barberId].overrides.Keys == schedules[barberId].overrides.Keys + {dateString}
    ensures r[barberId].overrides[dateString] == override
    ensures forall key :: key in schedules[barberId].overrides && key != dateString ==>
      r[barberId].overrides[key] == schedules[barberId].overrides[key]
  {
    var s := schedules[barberId];
    schedules[barberId := s.(overrides := s.overrides[dateString := override])]
  }

  /** After storing an override for a date, that date's effective day is the override. */
  lemma OverrideThenEffectiveDay(schedules: map<int, BarberSchedule>, barberId: int,
                                 date: CalendarDate, override: DayOverride)
    requires barberId in schedules
    ensures EffectiveDay(SetOverride(schedules, barberId, DateKey(date), override)[barberId], date) == override
  {
  }

  /** Storing an override for one date leaves every other date's effective day
      as it was. */
  lemma OverrideLeavesOtherDates(schedules: map<int, BarberSchedule>, barberId: int,
                                 date: CalendarDate, override: DayOverride, other: CalendarDate)
    requires barberId in schedules && other != date
    ensures EffectiveDay(SetOverride(schedules, barberId, DateKey(date), override)[barberId], other)
         == EffectiveDay(schedules[barberId], other)
  {
    DateKeyInjective(date, other);
  }

  /** Storing the same override twice is the same as storing it once. */
  lemma SetOverrideIdempotent(schedules: map<int, BarberSchedule>, barberId: int,
                              dateString: string, override: DayOverride)
    requires barberId in schedules
    ensures var once := SetOverride(schedules, barberId, dateString, override);
      SetOverride(once, barberId, dateString, override) == once
  {
    var once := SetOverride(schedules, barberId, dateString, override);
    var s := once[barberId];
    assert s.overrides[dateString := override] == s.overrides;
    assert s.(overrides := s.overrides) == s;
  }

  datatype ScheduleError = NoScheduleForBarber

  /** `ScheduleEditor`: the selected barber and the local copy of all schedules
      that the editor changes before they are saved. */
  class ScheduleEditor {
    var selectedBarberId: Option<int>
    var localSchedules: map<int, BarberSchedule>

    /** Starts on the first barber of the list (`barbers[0]?.id || null`). */
    constructor (barbers: seq<Barber>, schedules: map<int, BarberSchedule>)
      ensures localSchedules == schedules
      ensures selectedBarberId == if |barbers| > 0 && barbers[0].id != 0 then Some(barbers[0].id) else None
    {
      localSchedules := schedules;
      selectedBarberId := if |barbers| > 0 && barbers[0].id != 0 then Some(barbers[0].id) else None;
    }

    /** `handleScheduleOverride`: no barber selected (null or 0) does nothing;
        otherwise the date's override is replaced. For a selected barber
        without a schedule, `newSchedules[selectedBarberId].overrides` throws a
        TypeError in the source; here that is a `Fail` that leaves the
        schedules alone. The app never gets this far for such a barber: the
        day editor that would call this throws first, while rendering. */
    method HandleScheduleOverride(date: CalendarDate, override: DayOverride) returns (outcome: Outcome<ScheduleError>)
      modifies this
      ensures selectedBarberId == old(selectedBarberId)
      ensures old(selectedBarberId).None? || old(selectedBarberId) == Some(0) ==>
        outcome == Pass && localSchedules == old(localSchedules)
      ensures old(selectedBarberId).Some? && old(selectedBarberId).value != 0 ==>
        var id := old(selectedBarberId).value;
        if id in old(localSchedules) then
          outcome == Pass && localSchedules == SetOverride(old(localSchedules), id, DateKey(date), override)
        else
          outcome == Fail(NoScheduleForBarber) && localSchedules == old(localSchedules)
    {
      if selectedBarberId.None? || selectedBarberId.value == 0 {
        return Pass;
      }
      var id := selectedBarberId.value;
      var dateString := DateKey(date);
      if id !in localSchedules {
        return Fail(NoScheduleForBarber);
      }
      localSchedules := SetOverride(localSchedules, id, dateString, override);
      outcome := Pass;
    }

    /** The day editor's `onScheduleChange` bound to `handleScheduleOverride`
        for the date being edited: the override the editor reports is stored,
        so that date's effective day and the times offered on it follow the
        editor, and every other date stays as it was. */
    method ReportDay(e: DayScheduleEditor) returns (outcome: Outcome<ScheduleError>)
      modifies this
      ensures selectedBarberId == old(selectedBarberId)
      ensures selectedBarberId.None? || selectedBarberId == Some(0) ==>
        outcome == Pass && localSchedules == old(localSchedules)
      ensures selectedBarberId.Some? && selectedBarberId.value != 0 ==>
        var id := selectedBarberId.value;
        (outcome == Pass <==> id in old(localSchedules)) &&
        (outcome == Pass ==> localSchedules == SetOverride(old(localSchedules), id, DateKey(e.date), e.Current())) &&
        (outcome != Pass ==> localSchedules == old(localSchedules)) &&
        (outcome == Pass ==>
          id in localSchedules &&
          EffectiveDay(localSchedules[id], e.date) == DayOverride(e.isWorking, e.slots) &&
          Candidates(localSchedules[id], e.date) == (if e.isWorking then e.slots else []) &&
          forall other :: other != e.date ==>
            EffectiveDay(localSchedules[id], other) == EffectiveDay(old(localSchedules)[id], other))
    {
      outcome := HandleScheduleOverride(e.date, e.Current());
      if selectedBarberId.Some? && selectedBarberId.value != 0 && outcome == Pass {
        var id := selectedBarberId.value;
        OverrideThenEffectiveDay(old(localSchedules), id, e.date, e.Current());
        forall other | other != e.date
          ensures EffectiveDay(localSchedules[id], other) == EffectiveDay(old(localSchedules)[id], other)
        {
          OverrideLeavesOtherDates(old(localSchedules), id, e.date, e.Current(), other);
        }
      }
    }
  }

  /** `/^\d{2}:\d{2}$/`: two digits, a colon, two digits; the digit values are not checked. */
  predicate IsSlotFormat(s: string) {
    |s| == 5 && IsDigit(s[0]) && IsDigit(s[1]) && s[2] == ':' && IsDigit(s[3]) && IsDigit(s[4])
  }

  lemma SlotFormatExamples()
    ensures !IsSlotFormat("9:00") && IsSlotFormat("09:00") && IsSlotFormat("25:99")
    ensures !IsSlotFormat("09:00 ") && !IsSlotFormat("0900")
  {
  }

  /** `[...prev, newSlot].sort()`: the list gains exactly that slot and is sorted. */
  function WithSlot(slots: seq<string>, newSlot: string): (r: seq<string>)
    ensures multiset(r) == multiset(slots) + multiset{newSlot}
    ensures Sorted(r)
  {
    SortStrings(slots + [newSlot])
  }

  /** Adding a slot that is not there yet keeps a strictly ascending list
      strictly ascending (sorted, no duplicates). */
  lemma WithSlotKeepsStrictOrder(slots: seq<string>, newSlot: string)
    requires StrictlySorted(slots) && newSlot !in slots
    ensures StrictlySorted(WithSlot(slots, newSlot))
    ensures forall x :: x in WithSlot(slots, newSlot) <==> x in slots || x == newSlot
  {
    var r := WithSlot(slots, newSlot);
    StrictIsNoDup(slots);
    NoDupMultiset(slots);
    assert forall y :: multiset(r)[y] <= 1 by {
      forall y ensures multiset(r)[y] <= 1 {
        if y == newSlot {
          assert multiset(slots)[y] == 0;
        }
      }
    }
    NoDupMultiset(r);
    SortedNoDupIsStrict(r);
    forall x ensures x in r <==> x in slots || x == newSlot {
      assert x in r <==> x in multiset(r);
      assert x in slots <==> x in multiset(slots);
    }
  }

  /** `prev.filter(s => s !== slotToRemove)`. */
  function WithoutSlot(slots: seq<string>, slotToRemove: string): (r: seq<string>)
    ensures IsSubsequence(r, slots)
    ensures forall x :: x in r <==> x in slots && x != slotToRemove
  {
    if slots == [] then []
    else if slots[0] == slotToRemove then
      var r := WithoutSlot(slots[1..], slotToRemove);
      assert r != [] ==> r[0] in r;
      r
    else
      assert slots == [slots[0]] + slots[1..];
      [slots[0]] + WithoutSlot(slots[1..], slotToRemove)
  }

  /** Removing a slot keeps a strictly ascending list strictly ascending. */
  lemma WithoutSlotKeepsStrictOrder(slots: seq<string>, slotToRemove: string)
    requires StrictlySorted(slots)
    ensures StrictlySorted(WithoutSlot(slots, slotToRemove))
  {
    SubsequenceStrictlySorted(WithoutSlot(slots, slotToRemove), slots);
  }

  /** `DayScheduleEditor`: the working flag and slot list of one day being
      edited, and the text typed into the new-slot field. */
  class DayScheduleEditor {
    const date: CalendarDate
    var isWorking: bool
    var slots: seq<string>
    var newSlot: string

    /** Starts from the effective day of the date. */
    constructor (date: CalendarDate, schedule: BarberSchedule)
      ensures this.date == date
      ensures isWorking == EffectiveDay(schedule, date).isWorking
      ensures slots == EffectiveDay(schedule, date).slots
      ensures newSlot == ""
    {
      this.date := date;
      var current := EffectiveDay(schedule, date);
      isWorking := current.isWorking;
      slots := current.slots;
      newSlot := "";
    }

    /** The override the editor reports to the schedule editor after every change. */
    function Current(): (o: DayOverride)
      reads this
      ensures o.isWorking == isWorking && o.slots == slots
    {
      DayOverride(isWorking, slots)
    }

    /** The working-day toggle. */
    method SetIsWorking(checked: bool)
      modifies this
      ensures isWorking == checked && slots == old(slots) && newSlot == old(newSlot)
    {
      isWorking := checked;
    }

    /** Typing into the new-slot field. */
    method SetNewSlot(text: string)
      modifies this
      ensures newSlot == text && slots == old(slots) && isWorking == old(isWorking)
    {
      newSlot := text;
    }

    /** `addSlot`: accepted only for `DD:DD` text not already listed; then the
        list gains it, is re-sorted, and the field is cleared. A rejected text
        changes nothing. */
    method AddSlot() returns (added: bool)
      modifies this
      ensures added <==> IsSlotFormat(old(newSlot)) && old(newSlot) !in old(slots)
      ensures added ==> slots == WithSlot(old(slots), old(newSlot)) && newSlot == ""
      ensures !added ==> slots == old(slots) && newSlot == old(newSlot)
      ensures isWorking == old(isWorking)
    {
      added := IsSlotFormat(newSlot) && newSlot !in slots;
      if added {
        slots := WithSlot(slots, newSlot);
        newSlot := "";
      }
    }

    /** `removeSlot`: every copy of the slot goes; the working flag stays, so
        removing the last slot leaves a working day with no slots. */
    method RemoveSlot(slotToRemove: string)
      modifies this
      ensures slots == WithoutSlot(old(slots), slotToRemove)
      ensures isWorking == old(isWorking) && newSlot == old(newSlot)
    {
      slots := WithoutSlot(slots, slotToRemove);
    }
  }

  // ------------------------------------------- service and barber editors

  /** `Math.max(...ids, 0)`. */
  function MaxOrZero(ids: seq<int>): (m: int)
    ensures m >= 0
    ensures forall i :: i in ids ==> i <= m
    ensures m == 0 || m in ids
  {
    if ids == [] then 0
    else
      var rest := MaxOrZero(ids[1..]);
      assert ids == [ids[0]] + ids[1..];
      if ids[0] > rest then ids[0] else rest
  }

  /** `Math.max(...ids, 0) + 1`: positive and larger than every existing id. */
  function NewId(ids: seq<int>): (r: int)
    ensures r >= 1 && r !in ids
    ensures forall i :: i in ids ==> i < r
  {
    MaxOrZero(ids) + 1
  }

  function Ids<T>(items: seq<T>, idOf: T -> int): (r: seq<int>)
    ensures |r| == |items|
    ensures forall i :: 0 <= i < |items| ==> r[i] == idOf(items[i])
  {
    if items == [] then [] else [idOf(items[0])] + Ids(items[1..], idOf)
  }

  /** `handleSave` of the service and barber editors: a nonzero id replaces
      every element with that id in place; id 0 appends the item under a fresh id. */
  function SaveItem<T(!new)>(items: seq<T>, item: T, idOf: T -> int, withId: (T, int) -> T): (r: seq<T>)
    requires forall x, k :: idOf(withId(x, k)) == k
    ensures idOf(item) != 0 ==> |r| == |items| && Ids(r, idOf) == Ids(items, idOf)
    ensures idOf(item) != 0 ==> forall i :: 0 <= i < |r| ==>
      r[i] == if idOf(items[i]) == idOf(item) then item else items[i]
    ensures idOf(item) == 0 ==> |r| == |items| + 1 && r[..|items|] == items
    ensures idOf(item) == 0 ==> r[|items|] == withId(item, NewId(Ids(items, idOf)))
    ensures idOf(item) == 0 ==> idOf(r[|items|]) >= 1 && idOf(r[|items|]) !in Ids(items, idOf)
    ensures NoDup(Ids(items, idOf)) ==> NoDup(Ids(r, idOf))
  {
    if idOf(item) != 0 then
      var r := seq(|items|, i requires 0 <= i < |items| => if idOf(items[i]) == idOf(item) then item else items[i]);
      assert Ids(r, idOf) == Ids(items, idOf);
      r
    else
      var newId := NewId(Ids(items, idOf));
      var r := items + [withId(item, newId)];
      assert r[..|items|] == items;
      assert Ids(r, idOf) == Ids(items, idOf) + [newId];
      r
  }

  /** The service editor's `handleSave`. */
  function SaveService(services: seq<Service>, service: Service): (r: seq<Service>)
    ensures service.id == 0 ==> |r| == |services| + 1 && r[..|services|] == services
    ensures service.id == 0 ==> r[|services|] == service.(id := r[|services|].id)
    ensures service.id == 0 ==> r[|services|].id >= 1 && forall s :: s in services ==> s.id < r[|services|].id
    ensures service.id != 0 ==> |r| == |services|
    ensures service.id != 0 ==> forall i :: 0 <= i < |r| ==>
      r[i] == if services[i].id == service.id then service else services[i]
    ensures NoDup(Ids(services, (s: Service) => s.id)) ==> NoDup(Ids(r, (s: Service) => s.id))
  {
    var idOf := (s: Service) => s.id;
    var r := SaveItem(services, service, idOf, (s: Service, k: int) => s.(id := k));
    assert service.id == 0 ==> forall s :: s in services ==> s.id in Ids(services, idOf);
    r
  }

  /** The barber editor's `handleSave`. */
  function SaveBarber(barbers: seq<Barber>, barber: Barber): (r: seq<Barber>)
    ensures barber.id == 0 ==> |r| == |barbers| + 1 && r[..|barbers|] == barbers
    ensures barber.id == 0 ==> r[|barbers|] == barber.(id := r[|barbers|].id)
    ensures barber.id == 0 ==> r[|barbers|].id >= 1 && forall b :: b in barbers ==> b.id < r[|barbers|].id
    ensures barber.id != 0 ==> |r| == |barbers|
    ensures barber.id != 0 ==> forall i :: 0 <= i < |r| ==>
      r[i] == if barbers[i].id == barber.id then barber else barbers[i]
    ensures NoDup(Ids(barbers, (b: Barber) => b.id)) ==> NoDup(Ids(r, (b: Barber) => b.id))
  {
    var idOf := (b: Barber) => b.id;
    var r := SaveItem(barbers, barber, idOf, (b: Barber, k: int) => b.(id := k));
    assert barber.id == 0 ==> forall b :: b in barbers ==> b.id in Ids(barbers, idOf);
    r
  }

  // ------------------------------------------------------- password change

  datatype PasswordError = NoError | Incorrect | TooShort | Mismatch

  /** The checks of `handlePasswordSave`, in order: the current password must
      match, the new one must have at least 4 characters, and the confirmation
      must repeat it. The first failing check decides the error. */
  function CheckPasswordChange(stored: string, current: string, newPassword: string, confirm: string): (r: PasswordError)
    ensures r == Incorrect <==> current != stored
    ensures r == TooShort <==> current == stored && |newPassword| < 4
    ensures r == Mismatch <==> current == stored && |newPassword| >= 4 && newPassword != confirm
    ensures r == NoError <==> current == stored && |newPassword| >= 4 && newPassword == confirm
  {
    if current != stored then Incorrect
    else if |newPassword| < 4 then TooShort
    else if newPassword != confirm then Mismatch
    else NoError
  }

  /** `SettingsEditor`'s password form, with the admin password it changes. */
  class SettingsEditor {
    var adminPassword: string
    var current: string
    var newPassword: string
    var confirm: string
    var passwordError: PasswordError

    constructor (adminPassword: string)
      ensures this.adminPassword == adminPassword
      ensures current == "" && newPassword == "" && confirm == "" && passwordError == NoError
    {
      this.adminPassword := adminPassword;
      current, newPassword, confirm := "", "", "";
      passwordError := NoError;
    }

    /** `handlePasswordFormChange`, for all three fields at once. */
    method SetPasswordForm(current: string, newPassword: string, confirm: string)
      modifies this
      ensures this.current == current && this.newPassword == newPassword && this.confirm == confirm
      ensures adminPassword == old(adminPassword) && passwordError == old(passwordError)
    {
      this.current, this.newPassword, this.confirm := current, newPassword, confirm;
    }

    /** `handlePasswordSave`: on success the password becomes the new one and
        the form is cleared; on any failure only the error is set. */
    method HandlePasswordSave()
      modifies this
      ensures passwordError == CheckPasswordChange(old(adminPassword), old(current), old(newPassword), old(confirm))
      ensures passwordError == NoError ==>
        adminPassword == old(newPassword) && current == "" && newPassword == "" && confirm == ""
      ensures passwordError != NoError ==>
        adminPassword == old(adminPassword) && current == old(current) &&
        newPassword == old(newPassword) && confirm == old(confirm)
    {
      passwordError := NoError;
      if current != adminPassword {
        passwordError := Incorrect;
        return;
      }
      if |newPassword| < 4 {
        passwordError := TooShort;
        return;
      }
      if newPassword != confirm {
        passwordError := Mismatch;
        return;
      }
      adminPassword := newPassword;
      current, newPassword, confirm := "", "", "";
    }
  }
}
