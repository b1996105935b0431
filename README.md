# Barber shop booking: a Dafny model of its scheduling core

The application is a single-page React app for a barber shop. A customer
goes through five steps: barber, services, date and time, personal details,
and confirmation. An admin edits the barbers, the services, each barber's
weekly schedule and per-date overrides, and the admin password. This
project models the logic behind those screens and proves properties of it:

- which time slots a barber offers on a day;
- the month grid of the calendar;
- the `YYYY-MM-DD` key of the per-date overrides;
- the admin's per-date override editor;
- the booking list kept in the app (append, sort, delete);
- the step machine;
- the password, id, name and phone checks;
- the service selection and its totals.

JavaScript `Date` values are replaced by proleptic Gregorian calendar dates
`Civil.CalendarDate` (year, month, day). Day numbers count from 0001-01-01,
which was a Monday, and `Civil.DayOfWeek` returns 0 for Sunday, as
`getDay` does. Time slots stay strings (`"09:00"`).

Modules, one per source file, plus shared support:

| file | module | models |
|---|---|---|
| `wrappers.dfy` | `Wrappers` | `Option`, `Outcome` |
| `seqs.dfy` | `Seqs` | order-preserving subsequences, absence of repeats |
| `text.dfy` | `Text` | decimal digits, `padStart`, JavaScript `parseInt` and whitespace, string order and sorting |
| `civil.dfy` | `Civil` | calendar dates, weekdays, the next day |
| `types.dfy` | `Types` | the records of `types.ts`, and the count of bookings holding a slot |
| `date_time_picker.dfy` | `DateTimePicker` | `components/DateTimePicker.tsx` |
| `admin_panel.dfy` | `AdminPanel` | `components/AdminPanel.tsx` |
| `service_selector.dfy` | `ServiceSelector` | `components/ServiceSelector.tsx` |
| `user_info_form.dfy` | `UserInfoForm` | `components/UserInfoForm.tsx` |
| `app.dfy` | `App` | `App.tsx` |
| `booking_invariants.dfy` | `BookingInvariants` | properties that span components |

Component state that the source changes in place is modelled as classes:

- `App.BookingApp` holds the state of `App`.
- `DateTimePicker.DatePicker` holds the picker's selected date and time.
- `AdminPanel.ScheduleEditor` holds the selected barber and the local copy of the schedules.
- `AdminPanel.DayScheduleEditor` holds the day being edited.
- `AdminPanel.SettingsEditor` holds the password form.

Expressions in the source are modelled as functions. The month grid's loops
are modelled as a method with loops.

The model follows the code, including where it departs from what the app
appears to intend:

- In Persian (`fa`) the grid starts with `(firstDay + 1) % 7` blanks. The week starts on Saturday.
- The booking comparator returns 0 when either booking has no date. It does not sort undated bookings last.
- Confirming a booking does not check for a conflicting booking.
- `addSlot` checks only the `DD:DD` shape, so `"25:99"` is accepted.
- The steps move by plain +1 and -1, with no bounds.

## Model

| member | source | states |
|---|---|---|
| `DateTimePicker.DateKey` | components/DateTimePicker.tsx:40 | the key ends in `-MM-DD`, and the two-digit month and day read back as the date's month and day |
| `DateTimePicker.DateKeyRoundTrip` | components/DateTimePicker.tsx:40 | reading the key back gives the date itself (year included) |
| `DateTimePicker.DateKeyInjective` | components/AdminPanel.tsx:171 | two dates share a key iff they are the same calendar day, so overrides are one per day |
| `DateTimePicker.LeadingBlanks` | components/DateTimePicker.tsx:23-25 | the number of blanks is below 7; it equals the first weekday, or for `fa` it is that weekday counted from Saturday |
| `DateTimePicker.DayColumn` | components/DateTimePicker.tsx:25-33 | the n-th day of the month sits in the column of its own weekday (Sunday first, or Saturday first for `fa`) |
| `DateTimePicker.MonthGrid` | components/DateTimePicker.tsx:20-35 | the grid is exactly `lead` blanks then every day of the month in ascending order, and each day lands in its weekday's column |
| `DateTimePicker.BookedTimes` | components/DateTimePicker.tsx:60-66 | a time is listed iff some booking of that barber on that calendar day holds it |
| `DateTimePicker.Unbooked` | components/DateTimePicker.tsx:68 | an order-preserving subsequence of the slots, holding exactly the slots that are not booked |
| `DateTimePicker.AvailableTimeSlots` | components/DateTimePicker.tsx:42-70 | empty without a date, schedule or barber; otherwise an ordered subsequence of the candidates, holding exactly the candidates that no booking of that barber on that day holds |
| `BookingInvariants.CandidatesFollowEffectiveDay` | components/DateTimePicker.tsx:46-57 | the candidates (`DateTimePicker.Candidates`, the source's `potentialSlots`) are the override's slots on a working override day, none on a non-working override day, else the default slots iff the weekday is a default working day |
| `BookingInvariants.DisabledFollowsEffectiveDay` | components/DateTimePicker.tsx:120-124 | a day is disabled (`DateTimePicker.IsDayDisabled`) iff it is before today or not a working day under the override-else-weekday rule |
| `BookingInvariants.NonWorkingDayHasNoSlots` | components/DateTimePicker.tsx:49-57 | a day disabled for not working offers no time |
| `BookingInvariants.AvailabilityStaysAscending` | components/DateTimePicker.tsx:68 | ascending candidates without repeats give ascending offered times without repeats |
| `DateTimePicker.DatePicker.constructor` | components/DateTimePicker.tsx:16-17 | the selection starts from the booking's date and time |
| `DateTimePicker.DatePicker.HandleDateSelect` | components/DateTimePicker.tsx:73-76 | choosing a day selects it and clears the time, so Next (`IsNextDisabled`, line 93) is disabled |
| `DateTimePicker.DatePicker.HandleTimeSelect` | components/DateTimePicker.tsx:78-83 | records the time, hands the (date, time) pair on when a date is selected, and Next is enabled iff there is a date and a non-empty time |
| `AdminPanel.WithoutBookingId` | components/AdminPanel.tsx:68 | an order-preserving subsequence holding exactly the bookings whose id differs |
| `AdminPanel.HandleDelete` | components/AdminPanel.tsx:65-69 | a missing or zero id changes nothing; otherwise exactly the bookings with that id go and the rest keep their order |
| `AdminPanel.SetOverride` | components/AdminPanel.tsx:143-146 | only that barber's override for that key changes; the other barbers, the defaults and the other keys stay |
| `AdminPanel.OverrideThenEffectiveDay` | components/AdminPanel.tsx:243-249 | after an override is stored for a date, that date's effective day (`AdminPanel.EffectiveDay`, the editor's `currentSchedule`) is the override |
| `AdminPanel.OverrideLeavesOtherDates` | components/AdminPanel.tsx:140-148 | storing an override for one date leaves every other date's effective day as it was |
| `AdminPanel.SetOverrideIdempotent` | components/AdminPanel.tsx:145 | storing the same override twice is storing it once |
| `BookingInvariants.OverrideDrivesCandidates` | components/AdminPanel.tsx:140-148 | after an override, the customer is offered exactly the override's slots that day (none when not working), and other dates' candidates are unchanged |
| `AdminPanel.ScheduleEditor.constructor` | components/AdminPanel.tsx:127-128 | the editor starts on the first barber (none for an empty list or id 0) with a copy of the schedules |
| `AdminPanel.ScheduleEditor.HandleScheduleOverride` | components/AdminPanel.tsx:140-148 | no selected barber changes nothing; otherwise only that date's override of that barber is replaced. A selected barber without a schedule is reported as a failure that changes nothing, where the source throws (see "## Left out") |
| `AdminPanel.SlotFormatExamples` | components/AdminPanel.tsx:271 | `"9:00"`, `"09:00 "` and `"0900"` fail the pattern; `"09:00"` and `"25:99"` pass |
| `AdminPanel.WithSlot` | components/AdminPanel.tsx:272 | the list gains exactly the new slot (as a multiset) and is sorted |
| `AdminPanel.WithSlotKeepsStrictOrder` | components/AdminPanel.tsx:270-275 | a sorted list without repeats stays so, and its members are the old ones plus the new slot |
| `AdminPanel.WithoutSlot` | components/AdminPanel.tsx:277 | every occurrence of the slot goes, and the others keep their order |
| `AdminPanel.WithoutSlotKeepsStrictOrder` | components/AdminPanel.tsx:276-278 | a sorted list without repeats stays so after a removal |
| `AdminPanel.DayScheduleEditor.constructor` | components/AdminPanel.tsx:243-253 | the editor starts from the effective day: the override if stored, else the weekly default |
| `AdminPanel.ScheduleEditor.ReportDay` | components/AdminPanel.tsx:224-230 | the override the day editor reports (`DayScheduleEditor.Current`, lines 265-268) is stored, exactly as `SetOverride` stores it (other barbers and other dates untouched), and a missing schedule leaves the schedules unchanged: that date's effective day becomes the editor's working flag and slots, the customer is offered exactly those slots on a working day and none otherwise, and every other date is unchanged; with no barber selected nothing changes |
| `AdminPanel.DayScheduleEditor.SetIsWorking` | components/AdminPanel.tsx:287 | the toggle sets only the working flag |
| `AdminPanel.DayScheduleEditor.SetNewSlot` | components/AdminPanel.tsx:303 | typing sets only the pending slot text |
| `AdminPanel.DayScheduleEditor.AddSlot` | components/AdminPanel.tsx:270-275 | accepted iff the text has the `DD:DD` shape and is not listed yet; then the slot is added, the list sorted and the text cleared; otherwise nothing changes |
| `AdminPanel.DayScheduleEditor.RemoveSlot` | components/AdminPanel.tsx:276-278 | every occurrence goes and the working flag is untouched, even when no slot is left |
| `AdminPanel.MaxOrZero` | components/AdminPanel.tsx:323 | the largest id, or 0: at least 0, no id above it, and it is 0 or one of the ids |
| `AdminPanel.NewId` | components/AdminPanel.tsx:323 | the new id is at least 1 and above every existing id, so it is unused |
| `AdminPanel.SaveItem` | components/AdminPanel.tsx:319-327 | a non-zero id replaces the matching entries in place; id 0 appends the item under a fresh id; distinct ids stay distinct |
| `AdminPanel.SaveService` | components/AdminPanel.tsx:319-327 | a new service is appended with an id above all others; an existing one is replaced in place; ids stay distinct |
| `AdminPanel.SaveBarber` | components/AdminPanel.tsx:397-405 | a new barber is appended with an id above all others; an existing one is replaced in place; ids stay distinct |
| `AdminPanel.CheckPasswordChange` | components/AdminPanel.tsx:493-508 | wrong current password, then a new one shorter than 4, then a mismatched confirmation, each iff the earlier checks passed |
| `AdminPanel.SettingsEditor.constructor` | components/AdminPanel.tsx:473-474 | the form starts empty, with no error |
| `AdminPanel.SettingsEditor.SetPasswordForm` | components/AdminPanel.tsx:488-491 | editing the form changes only the form |
| `AdminPanel.SettingsEditor.HandlePasswordSave` | components/AdminPanel.tsx:493-510 | on success the password becomes the new one and the form clears; on any failure only the error is set |
| `ServiceSelector.WithoutServiceId` | components/ServiceSelector.tsx:19 | an order-preserving subsequence holding exactly the entries with another id |
| `ServiceSelector.OnlyServiceId` | components/ServiceSelector.tsx:17-19 | holds exactly the entries a deselection removes |
| `ServiceSelector.ToggleService` | components/ServiceSelector.tsx:16-23 | a selected id loses all its entries and the rest keep order; an unselected service is appended; either way its selection flips |
| `ServiceSelector.ToggleTwice` | components/ServiceSelector.tsx:16-23 | toggling an unselected service twice restores the selection |
| `ServiceSelector.SelectionTotals` | components/ServiceSelector.tsx:25-34 | nothing selected gives zero totals; one service gives its own price and duration |
| `ServiceSelector.TotalsAppend` | components/ServiceSelector.tsx:25-34 | the totals of a concatenation are the sum of the totals |
| `ServiceSelector.TotalsSplitById` | components/ServiceSelector.tsx:25-34 | the totals split into those of the entries with an id and those without it |
| `ServiceSelector.ToggleTotals` | components/ServiceSelector.tsx:16-34 | selecting adds the service's price and duration; deselecting removes those of every removed entry |
| `ServiceSelector.ServicesNextDisabled` | components/ServiceSelector.tsx:84 | Next is disabled iff no service is selected |
| `UserInfoForm.TrimmedEnds` | components/UserInfoForm.tsx:37-38 | what `trim` leaves is empty or starts and ends with a non-whitespace character |
| `UserInfoForm.TrimIsSlice` | components/UserInfoForm.tsx:37-38 | the trimmed text (`UserInfoForm.Trim`) is the contiguous slice of the input that starts where the leading whitespace ends |
| `UserInfoForm.TrimCutsOnlyWhitespace` | components/UserInfoForm.tsx:37-38 | every character cut away before or after that slice is whitespace |
| `UserInfoForm.TrimmedIsFixed` | components/UserInfoForm.tsx:37-38 | a text with no whitespace at either end is its own trim |
| `UserInfoForm.TrimIdempotent` | components/UserInfoForm.tsx:37-38 | trimming twice is trimming once |
| `UserInfoForm.TrimPadded` | components/UserInfoForm.tsx:37-38 | whitespace added around a text without whitespace at its ends is removed, and nothing else |
| `UserInfoForm.BlankTrimsToEmpty` | components/UserInfoForm.tsx:37 | a text made only of whitespace trims to the empty text |
| `UserInfoForm.PhoneValidIff` | components/UserInfoForm.tsx:38 | a phone is valid (`UserInfoForm.PhoneValid`) iff its trim is "09" followed by exactly nine ASCII digits |
| `UserInfoForm.ValidateAndProceed` | components/UserInfoForm.tsx:36-46 | the name error (`UserInfoForm.NameError`) iff the trimmed name has fewer than 3 characters; the phone error iff the pattern fails; both always set; the details are handed on, untrimmed, iff both pass |
| `UserInfoForm.NameIgnoresPadding` | components/UserInfoForm.tsx:37 | whitespace around a name does not change the verdict: it is refused iff the name itself has fewer than 3 characters |
| `UserInfoForm.BlankNameRefused` | components/UserInfoForm.tsx:37 | a name made only of whitespace is refused |
| `UserInfoForm.PhoneIgnoresPadding` | components/UserInfoForm.tsx:38 | "09" and nine digits are accepted whatever whitespace surrounds them |
| `UserInfoForm.AcceptedPhoneIsElevenDigits` | components/UserInfoForm.tsx:38 | an accepted phone trims to exactly eleven ASCII digits starting with "09" |
| `Text.ParseIntToString` | components/DateTimePicker.tsx:40 | reading back the decimal rendering of any integer, negative ones included, gives the integer |
| `Text.Pad2` | components/DateTimePicker.tsx:40 | `padStart(2, '0')` of a number below 100 is two digits that read back as the number |
| `Text.SortStrings` | components/AdminPanel.tsx:272 | `sort()` on strings keeps exactly the same elements (a permutation) and orders them lexicographically by character, which is the default `sort()` order for strings within the Basic Multilingual Plane, such as the `DD:DD` slots (see "## Left out") |
| `Text.InsertStringSorted` | components/AdminPanel.tsx:272 | inserting a string into a sorted list keeps it sorted |
| `Text.NoDupMultiset` | components/AdminPanel.tsx:270-275 | a list has no repeats iff every element occurs at most once in its multiset |
| `Text.JsParseInt` | App.tsx:133-134 | `parseInt(s, 10)` of a string of ASCII digits is its decimal value, and there is a number only when the string holds a digit |
| `Text.BeforeColon` | App.tsx:133 | the first piece of `split(':')`: a prefix without a colon, ended by the colon if there is one |
| `App.SlotTimeOfDay` | App.tsx:132-139 | every slot of the `DD:DD` shape is read by `split` and `parseInt` as the hour and minute it spells |
| `App.CompareAntisymmetric` | App.tsx:128-141 | swapping the two bookings negates the comparison (`App.CompareBookings`, with `App.BookingInstant` and `App.TimeOfDay` for the `setHours` instant) |
| `App.CompareTransitive` | App.tsx:128-141 | among bookings with a date and a readable time, the comparator's order is transitive |
| `App.CompareIsDateThenTime` | App.tsx:128-141 | for clock times, a booking comes first iff its date is earlier, or the dates agree and its time is earlier; the result is 0 iff the date and time agree |
| `App.SameSlotMinutes` | App.tsx:132-139 | two clock-time slots denoting the same minute are the same string |
| `App.InsertBooking` | App.tsx:128 | inserting adds exactly that booking (as a multiset) |
| `App.InsertBookingSorted` | App.tsx:128-141 | inserting a placeable booking into a list in comparator order keeps the order |
| `App.InsertBookingPosition` | App.tsx:128 | insertion splices the booking in and keeps the others in order: it precedes every booking after it and does not precede the one just before it, so it goes after bookings it ties with |
| `App.SortBookings` | App.tsx:128 | the sort keeps the length and the bookings (a permutation) |
| `App.SortBookingsSorted` | App.tsx:128-141 | when every booking has a date and a readable time, the sorted list is in comparator order |
| `App.SortBookingsSlotCount` | App.tsx:128 | sorting claims every slot as often as before |
| `App.NewBooking` | App.tsx:123-126 | the new booking is the current details with the new id, nothing else changed |
| `App.ConfirmedBookings` | App.tsx:122-141 | exactly one booking more; every earlier booking is kept; slot claims grow only by the new booking's own |
| `App.ApplyPatch` | App.tsx:118-120 | each supplied field is overwritten, and every other field keeps its value |
| `App.PatchLaws` | App.tsx:118-120 | two updates in a row are one merged update; an empty update changes nothing; repeating an update changes nothing more |
| `App.InitialSchedules` | App.tsx:69-79 | every initial barber has a schedule |
| `App.InitialSchedulesFacts` | App.tsx:69-79 | the schedules are keyed by exactly the initial barbers' ids, each the default schedule |
| `App.DefaultWeekClosesFriday` | App.tsx:69-79 | the default week is open every day but Friday |
| `App.DefaultSlotsAscending` | App.tsx:69-79 | the default slots are ascending, without repeats |
| `App.MorningOrDaySlotOnTheHour` | App.tsx:69-79 | a slot `0h:00` or `1h:00` is a real clock time falling on the hour (its minute count is a multiple of 60) |
| `App.DefaultSlotsAreClockTimes` | App.tsx:69-79 | the default slots are clock times, each on the hour |
| `App.InitialIdsDistinct` | App.tsx:18-31 | the initial services and barbers have distinct ids |
| `App.BookingApp.constructor` | App.tsx:48-79 | the app starts at step 1 with no bookings, outside admin mode, with the password `admin123`, an empty booking and the initial data |
| `App.BookingApp.SelectedSchedule` | App.tsx:204 | the date step gets the schedule of the selected barber, if any |
| `App.BookingApp.HandleAdminToggle` | App.tsx:95-101 | admin mode is left if it is on; otherwise the password prompt opens; every other field is unchanged |
| `App.BookingApp.HandlePasswordSubmit` | App.tsx:103-110 | accepted iff the input is the stored password; then admin mode opens and the prompt closes; otherwise nothing changes; the password, bookings, step, booking, schedules, services and barbers never change |
| `App.BookingApp.HandleNextStep` | App.tsx:114 | the step goes up by exactly one; every other field is unchanged |
| `App.BookingApp.HandlePrevStep` | App.tsx:115 | the step goes down by exactly one; every other field is unchanged |
| `App.BookingApp.UpdateBookingDetails` | App.tsx:118-120 | the booking becomes the patched booking; every other field is unchanged |
| `App.BookingApp.HandleConfirmBooking` | App.tsx:122-153 | the list becomes the confirmed list under the given id, and the step advances by one; every other field is unchanged |
| `App.BookingApp.ToggleSelectedService` | App.tsx:189 | the selection becomes the toggled selection; every other field is unchanged |
| `App.BookingApp.SelectBarber` | App.tsx:179 | the booking's barber becomes the chosen one; every other field is unchanged |
| `App.BookingApp.SelectDateTime` | App.tsx:199 | the booking's date and time become the chosen ones (`App.DateTimePatch`); every other field is unchanged |
| `App.BookingApp.BlurUserInfo` | components/UserInfoForm.tsx:32-34 | leaving a form field stores the form's contents, validated or not; every other field is unchanged |
| `App.BookingApp.SubmitUserInfo` | components/UserInfoForm.tsx:42-45 | the details are stored and the step advances iff the form validates; otherwise nothing changes; the other fields never change |
| `App.BookingApp.ResetBooking` | App.tsx:155-164 | the booking is emptied and the step goes back to 1; every other field, the bookings included, is unchanged |
| `BookingInvariants.SlotOf` | App.tsx:123-126 | a complete booking holds exactly one slot |
| `BookingInvariants.ConfirmKeepsOneBookingPerSlot` | App.tsx:122-141 | if the confirmed time was offered by the picker, at most one booking per slot still holds |
| `BookingInvariants.ConfirmIncompleteKeepsOneBookingPerSlot` | App.tsx:122-141 | a booking without barber, date or time claims no slot, so at most one booking per slot still holds |
| `BookingInvariants.ConfirmDoesNotCheckConflicts` | App.tsx:122-141 | confirming a taken slot is not refused: the slot is then held twice |
| `BookingInvariants.ConfirmedTimeIsTaken` | components/DateTimePicker.tsx:60-68 | once confirmed, the booked time is no longer offered for that barber and date |
| `BookingInvariants.FilterClaimsNoMore` | components/AdminPanel.tsx:68 | deleting never adds a claim on a slot |
| `BookingInvariants.DeleteKeepsOneBookingPerSlot` | components/AdminPanel.tsx:65-69 | deleting keeps at most one booking per slot |
| `BookingInvariants.DeleteFreesSlot` | components/AdminPanel.tsx:65-69 | deleting the booking that held a candidate slot offers that time again |
| `BookingInvariants.DefaultWeekExample` | App.tsx:69-79 | under the initial schedule, Friday 7 June 2024 is closed and Saturday 8 June offers the default slots |
| `Civil.DayOfWeek` | components/DateTimePicker.tsx:23 | `getDay` is a weekday number from 0 (Sunday) to 6 |
| `Civil.NextDay` | components/DateTimePicker.tsx:32 | `setDate(getDate() + 1)` stays in the month with the day one higher, or moves to day 1 only from the month's last day |
| `Civil.NextDayNumber` | components/DateTimePicker.tsx:32 | the next day is exactly one day later |
| `Civil.NextDayOfWeek` | components/DateTimePicker.tsx:31 | moving to the next day moves the weekday on by one |
| `Civil.BeforeIsLexicographic` | components/DateTimePicker.tsx:124 | one date is before another iff (year, month, day) is lexicographically smaller |

## Left out

- Rendering, CSS, the tabs of the admin panel and the purely presentational components are not modelled.
- Timers, the notification toast and its sound, and the simulated delay of the summary step are side effects. The notification shown on confirm in admin mode is not modelled.
- The photo upload through `FileReader` is browser I/O. The photo is carried along as an optional string.
- `window.confirm` is taken as accepted, and `alert` is not modelled. The language is a parameter rather than read from the document.
- Locale formatting of prices and dates is a foreign library call and is not modelled.
- JavaScript `Date` is replaced by calendar dates. Time zones, daylight saving and the time of day of `today` are not modelled. `today` is the current calendar date and is a parameter.
- `App.BookingApp.HandleConfirmBooking`: `Date.now()` is the parameter `now`. Its uniqueness is not assumed, and nothing in the model depends on it.
- The month navigation (`changeMonth`, `isPastMonth`) is not modelled. The grid takes the month as a parameter.
- `components/AdminPanel.tsx:150-161` is the same grid as `components/DateTimePicker.tsx:20-35` and is covered by `DateTimePicker.MonthGrid`.
- The deep clone with `JSON.parse(JSON.stringify(...))`, the effects that copy props into local state, and saving the local schedules back to the app are not modelled. Only the resulting values are.
- `components/PasswordModal.tsx` is only an error flag around the comparison of `App.BookingApp.HandlePasswordSubmit`.
- Saving settings and deleting a service or barber are not modelled.
- `AdminPanel.SettingsEditor` keeps its own copy of the admin password. In the app this is the state of `App` passed down with its setter.
- Strings are sequences of Unicode characters, not of UTF-16 code units. String lengths therefore count characters. `Text.SortStrings` and `Text.StrLess` compare characters, where `sort()` compares code units. The two differ only for characters outside the Basic Multilingual Plane: for example "\u{1F600}" sorts before "\uFF01" in JavaScript but after it here. Slots of the `DD:DD` shape are not affected.
- Prices and durations are integers. JavaScript numbers are floating point, and the totals are exact only while they stay integral.
- `AdminPanel.ScheduleEditor.ReportDay` models the report the day editor makes after an edit. The editor's effect (components/AdminPanel.tsx:265-268) also reports once when a day is opened, which stores that day's current effective day as an override. This mount-time report is not modelled. It changes no effective day, because the source never edits the weekly defaults (`AdminPanel.OverrideThenEffectiveDay` with the override equal to the date's own `EffectiveDay`).
- A barber added through `AdminPanel.SaveBarber` (components/AdminPanel.tsx:401-402) gets no schedule. Once such a barber is selected, the source throws a TypeError while rendering: in the day editor at `schedule.overrides[dateString]` (components/AdminPanel.tsx:246), and in the customer's calendar (components/DateTimePicker.tsx:122). That unmounts the app. The crash is not modelled. `AdminPanel.EffectiveDay`, `DateTimePicker.IsDayDisabled` and the `AdminPanel.DayScheduleEditor` constructor take a schedule that exists. `AdminPanel.ScheduleEditor.HandleScheduleOverride` and `AdminPanel.ScheduleEditor.ReportDay` report a missing schedule as a failure that changes nothing. The app never reaches that branch, because the render has already thrown.
- The customer form's own copy of the details (`localUserInfo`), field-by-field typing and the photo reader are not modelled. `App.BookingApp.BlurUserInfo` and `App.BookingApp.SubmitUserInfo` take the form's contents as a parameter. Because of `handleBlur`, the app's booking can hold unvalidated details before the form is submitted.
- `App.SortBookings`: `Array.prototype.sort` is modelled as a stable insertion sort. `App.InsertBookingPosition` states where each booking goes: after the bookings it ties with, with the others kept in order. When every booking has a date and a readable time, the comparator is a consistent order and the result is sorted. The model does not prove that every stable sort gives this same list. When some booking has no date or no readable time, the order the engine produces is implementation-defined, and only the permutation is stated.
- `App.CompareIsDateThenTime` is stated for clock times (`00:00`-`23:59`). For other parsable times the model follows `setHours` arithmetically, which can roll the instant into another day.
