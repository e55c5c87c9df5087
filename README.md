# Doctor availability and appointment booking of the dra-nash clinic app, in Dafny

This project models the scheduling logic of a clinic web application
(Next.js pages and route handlers over a Prisma database) and proves
properties of it. The core is the doctor's weekly availability and the
appointment slots offered and booked against it:

- the availability editor (`AvailabilityManager`): the conversion between
  the flat availability records `(dayOfWeek, "HH:MM", isAvailable)` and the
  per-day schedule with its inferred breaks, the conversion back, the
  per-day edit helpers and the timeline segments (`AvailabilitySchedule`,
  `AvailabilityEditor`);
- the two slot generators: `GET /api/availability` (fixed 09:00-19:00
  window, half-open overlap against every doctor's appointments) and
  `GET /api/availability/slots` (the doctor's template minus exact start
  matches) (`AvailabilityRoute`, `AvailabilitySlotsRoute`);
- template persistence `PUT /api/doctor/availability` as a replace-all on
  an in-memory table (`DoctorAvailabilityRoute`);
- booking creation `POST /api/appointments`, which inserts a PENDING row
  without any conflict check, and answers 500 when the doctor id names no
  doctor (`AppointmentsRoute`).

Around it: the route guard (`Middleware`), the signup and booking wizards
(`SignupWizard`, `BookingWizard`), the date picker (`DatePicker`), the
appointment status buttons (`AppointmentActions`), the receipt upload
route (`UploadRoute`), and the list filters, partitions and group-bys of
the patient and doctor pages (`PatientAppointments`, `PatientDashboard`,
`PatientPayments`, `DoctorDashboard`, `DoctorPatients`, `DoctorAgenda`,
`ClinicalRecords`). Shared pieces: `Wrappers` (Option), `TimeGrid`
(minutes and the zero-padded `"HH:MM"` codec), `SeqUtil` (filter, stable
sort, first-appearance de-duplication) and `Clinic` (the appointment and
availability records).

Modelling conventions:

- A time of day is a number of minutes after midnight (0..1439) and stands
  for its zero-padded `"HH:MM"` text. The component compares such strings
  with `sort()`, `!==`, `<` and `>`; `TimeGrid.FormatOrder` proves that
  lexicographic order on them is numeric order, so the model compares
  minutes.
- Timestamps are whole minutes on one local time line. The current time,
  local midnight, the weekday, the parsed date of a request and date
  headings are parameters.
- Database reads are parameters (sequences of rows and maps from ids);
  database writes go to a class holding the table as a sequence. The
  results of token verification, `fetch` calls, file writes and
  `confirm()` are parameters as well.
- Statuses stay strings, so that the default branches of the colour
  mappings are reachable.
- Where the component changes state (`useState` setters in handlers,
  accumulating loops) the model is a class or a method with loops, proved
  equal to a specification function; the `filter`/`map`/`switch` code is
  functions and lemmas.

Behaviours of the code worth noting (the model follows the code):

- `slotsToSchedule` sets `endTime` to the last available time, not one
  step past it, and `scheduleToSlots` emits `endTime` itself (the range is
  inclusive).
- A time is inside a break only when it is strictly between the break's
  start and end.
- The booking route has no conflict check: `AppointmentsRoute.AppointmentStore.Create`
  answers the same whatever the table holds, and `AppointmentsRoute.DoubleBooking`
  books the same doctor twice over the same interval.
- The two slot generators disagree with each other: one ignores the
  doctor's template and blocks on any doctor's overlapping appointment;
  the other ignores duration and overlap.
- The booking page refuses `image/jpg` while the upload route accepts it
  (`UploadRoute.PickerStricterThanRoute`).
- Selecting a new receipt file keeps the URL of a receipt already uploaded,
  so the old receipt is submitted (`BookingWizard.Wizard.HandleFileSelect`
  states the URL is unchanged).

## Model

| member | source | states |
|---|---|---|
| TimeGrid.Format | src/components/AvailabilityManager.tsx:108 | a time prints as five characters `HH:MM`, digits around a colon |
| TimeGrid.FormatThenParse | src/components/AvailabilityManager.tsx:100-108 | splitting a printed time on `:` and reading both numbers gives the time back |
| TimeGrid.ParseThenFormat | src/components/AvailabilityManager.tsx:100-108 | a well-formed `HH:MM` string is printed back unchanged after reading it |
| TimeGrid.FormatInjective | src/components/AvailabilityManager.tsx:108 | two times print the same iff they are equal |
| TimeGrid.FormatOrder | src/components/AvailabilityManager.tsx:62-112 | the string comparisons of the component (`sort()`, `!==`, `>`/`<` against break bounds) agree with numeric order: `Format(a) < Format(b)` lexicographically iff `a < b` |
| TimeGrid.StepOnGrid | src/components/AvailabilityManager.tsx:74-76 | on the :00/:30 grid the expected next time is exactly 30 minutes later |
| TimeGrid.GridGap | src/components/AvailabilityManager.tsx:74-78 | two different grid times are at least 30 minutes apart |
| TimeGrid.NatRoundTrip | src/app/api/upload/route.ts:51 | the decimal text of a timestamp reads back as the same number |
| AvailabilitySchedule.GenerateTimeOptions | src/components/AvailabilityManager.tsx:33-42 | returns the 33 options 06:00, 06:30, ..., 22:00, the i-th being 06:00 plus i half hours, strictly ascending as strings (no 22:30) |
| AvailabilitySchedule.AvailableTimes | src/components/AvailabilityManager.tsx:49 | a time is listed iff some record of that weekday with `isAvailable` carries it |
| AvailabilitySchedule.SortedTimesSpec | src/components/AvailabilityManager.tsx:62 | the sorted times ascend and hold exactly the day's available times (string sort equals numeric sort by `TimeGrid.FormatOrder`) |
| AvailabilitySchedule.GapBreaksSpec | src/components/AvailabilityManager.tsx:67-81 | a break `(cur, next)` is inferred iff `cur`, `next` are consecutive sorted times and `next` is not the expected next half hour |
| AvailabilitySchedule.DetectBreaks | src/components/AvailabilityManager.tsx:67-81 | the breaks loop returns exactly the inferred gap breaks |
| AvailabilitySchedule.DayEnabledIffAvailable | src/components/AvailabilityManager.tsx:48-59 | a day is disabled iff none of its records is available, and then it is 09:00-17:00 with no breaks |
| AvailabilitySchedule.DayScheduleOf | src/components/AvailabilityManager.tsx:49-89 | the per-day body computes the day's schedule (sort, bounds, breaks loop) |
| AvailabilitySchedule.ScheduleOf | src/components/AvailabilityManager.tsx:22-30 | exactly seven entries, in the order Monday..Saturday, Sunday |
| AvailabilitySchedule.SlotsToSchedule | src/components/AvailabilityManager.tsx:47-91 | the map over the weekdays returns the seven day schedules |
| AvailabilitySchedule.DayBounds | src/components/AvailabilityManager.tsx:62-81 | an enabled day starts at its earliest and ends at its latest available time (not one step later); both ends of every break are available times |
| AvailabilitySchedule.ScheduleDay | src/components/AvailabilityManager.tsx:47-89 | for grid records, entry `i` of the week is enabled iff its weekday has available times, and then spans the ascending list of exactly those times with the gaps as breaks |
| AvailabilitySchedule.ScheduleToSlots | src/components/AvailabilityManager.tsx:94-134 | the day loop emits, day after day, the records of each enabled day and nothing for a disabled one |
| AvailabilitySchedule.EmitDay | src/components/AvailabilityManager.tsx:100-130 | the hour/minute `while` loop appends the day's stepped times up to `endTime` inclusive that are not strictly inside a break |
| AvailabilitySchedule.DayPointsMember | src/components/AvailabilityManager.tsx:107-121 | from a grid start, a record is emitted iff it is an available grid time of that day between start and `endTime` inclusive and not strictly inside a break |
| AvailabilitySchedule.DayPointsAscending | src/components/AvailabilityManager.tsx:107-129 | the emitted times of a day strictly ascend |
| AvailabilitySchedule.SlotsOfMember | src/components/AvailabilityManager.tsx:97-98 | a record is emitted iff some enabled day emits it; disabled days emit nothing |
| AvailabilitySchedule.OwnTimeNotInBreak | src/components/AvailabilityManager.tsx:67-113 | a time of the sorted list is never strictly inside a break inferred from that list |
| AvailabilitySchedule.MissingTimeInBreak | src/components/AvailabilityManager.tsx:67-113 | a grid time within the list's range but missing from it is strictly inside an inferred break |
| AvailabilitySchedule.DayRoundTrip | src/components/AvailabilityManager.tsx:47-134 | for one day on the grid, the schedule inferred from its sorted times emits a time iff the time is in the list |
| AvailabilitySchedule.RoundTripSound | src/components/AvailabilityManager.tsx:47-134 | every record of `scheduleToSlots(slotsToSchedule(r))` is available and its (day, time) is an available pair of `r` |
| AvailabilitySchedule.RoundTripComplete | src/components/AvailabilityManager.tsx:47-134 | every available grid record of `r` on a weekday comes back from the round trip |
| AvailabilitySchedule.RoundTrip | src/components/AvailabilityManager.tsx:47-134 | on the :00/:30 grid the round trip yields exactly the available (day, time) pairs of `r`, duplicates collapsed, all with `isAvailable` true |
| AvailabilityEditor.ToggleDay | src/components/AvailabilityManager.tsx:151-157 | flips `enabled` of the targeted weekday only; every other entry and every other field is unchanged |
| AvailabilityEditor.ToggleDayTwice | src/components/AvailabilityManager.tsx:151-157 | toggling a day twice restores the schedule |
| AvailabilityEditor.ToggleExpanded | src/components/AvailabilityManager.tsx:159-169 | the targeted day's membership is flipped and every other day's is kept |
| AvailabilityEditor.ToggleExpandedTwice | src/components/AvailabilityManager.tsx:159-169 | toggling twice is the identity |
| AvailabilityEditor.InitiallyExpanded | src/components/AvailabilityManager.tsx:146-148 | the days expanded at load are exactly the enabled ones |
| AvailabilityEditor.UpdateDayTime | src/components/AvailabilityManager.tsx:171-177 | sets only the named bound of the targeted day |
| AvailabilityEditor.AddBreak | src/components/AvailabilityManager.tsx:179-187 | appends a 12:00-13:00 break to the targeted day only |
| AvailabilityEditor.RemoveAt | src/components/AvailabilityManager.tsx:193 | drops exactly index `i`, keeping the order of the rest; an index out of range changes nothing |
| AvailabilityEditor.RemoveBreak | src/components/AvailabilityManager.tsx:189-197 | removes break `i` of the targeted day only |
| AvailabilityEditor.RemoveAfterAdd | src/components/AvailabilityManager.tsx:179-197 | removing the break just added restores the schedule |
| AvailabilityEditor.UpdateAt | src/components/AvailabilityManager.tsx:210-212 | sets only the named end of break `i`; the other breaks are unchanged |
| AvailabilityEditor.UpdateBreak | src/components/AvailabilityManager.tsx:199-217 | updates break `i` of the targeted day only |
| AvailabilityEditor.ApplyPreset | src/components/AvailabilityManager.tsx:219-231 | "weekdays" enables exactly days 1-5, all at 09:00-17:00 without breaks; "custom" changes nothing |
| AvailabilityEditor.ApplyPresetIdempotent | src/components/AvailabilityManager.tsx:219-231 | applying a preset twice equals applying it once |
| AvailabilityEditor.WeekdaysPresetSlots | src/components/AvailabilityManager.tsx:94-231 | after the "weekdays" preset, saving emits exactly the grid times 09:00..17:00 of the days 1-5 present in the schedule |
| AvailabilityEditor.ComputeSegments | src/components/AvailabilityManager.tsx:370-399 | the segment code computes the day's timeline |
| AvailabilityEditor.WalkBreaks | src/components/AvailabilityManager.tsx:381-393 | the `forEach` over sorted breaks emits the walked segments and leaves `currentStart` at the last break's end |
| AvailabilityEditor.WalkSegmentsSpec | src/components/AvailabilityManager.tsx:381-393 | at most one segment per break; each has `start < end`, starts at the day start or a break's end and ends at a break's start |
| AvailabilityEditor.TimelineSpec | src/components/AvailabilityManager.tsx:370-399 | no breaks gives the single segment `[start, end]`; otherwise at most breaks+1 segments, each non-empty and bounded by the day's ends or break ends |
| AvailabilityRoute.DayAppointments | src/app/api/availability/route.ts:25-35 | the fetched appointments are exactly those of any doctor starting within the local day whose status is not CANCELLED |
| AvailabilityRoute.Labels | src/app/api/availability/route.ts:61 | each offered start is printed as its local `HH:mm` |
| AvailabilityRoute.GenerateSlots | src/app/api/availability/route.ts:43-67 | the `while (true)` loop pushes exactly the labels of the free candidate starts from 09:00, and terminates for every integer duration |
| AvailabilityRoute.Get | src/app/api/availability/route.ts:10-73 | a missing date or service id gives 400; an unknown service gives 404 before any slot is computed; an unparsable date gives 500; otherwise the free starts of that service on that day |
| AvailabilityRoute.FreeStartsSpec | src/app/api/availability/route.ts:50-67 | a start is offered iff it is a whole number of 30-minute steps from 09:00, the service ends by 19:00 (ending exactly at 19:00 is allowed) and the half-open slot overlaps no fetched appointment |
| AvailabilityRoute.FreeStartsAscending | src/app/api/availability/route.ts:50-67 | the offered starts strictly increase |
| AvailabilityRoute.StepFromWorkStart | src/app/api/availability/route.ts:43-66 | a whole number of 30-minute steps from 09:00 is on the :00/:30 grid |
| AvailabilityRoute.SlotsAscending | src/app/api/availability/route.ts:43-66 | the returned `HH:mm` strings are strictly ascending, and every offered start lies within the day on the grid |
| AvailabilityRoute.EmptyDayFrom | src/app/api/availability/route.ts:50-67 | with no appointments and a 30-minute service, `n` steps before 19:00 the loop offers exactly those `n` steps |
| AvailabilityRoute.EmptyDay | src/app/api/availability/route.ts:50-67 | with no appointments and a duration of 30 the result is the 20 times 09:00..18:30 |
| AvailabilityRoute.DayAppointmentBlocks | src/app/api/availability/route.ts:25-58 | a start is offered iff it fits before closing and overlaps no non-cancelled appointment of that day, of any doctor; a CANCELLED one never blocks |
| AvailabilitySlotsRoute.Template | src/app/api/availability/slots/route.ts:22-31 | the template is exactly this doctor's available rows for the weekday, ascending by time |
| AvailabilitySlotsRoute.Blocking | src/app/api/availability/slots/route.ts:37-57 | only PENDING or CONFIRMED appointments of this doctor starting between 00:00:00 and 23:59:59 of the date block |
| AvailabilitySlotsRoute.FreeRows | src/app/api/availability/slots/route.ts:60-70 | a template row remains iff no blocking appointment starts exactly at its time |
| AvailabilitySlotsRoute.TimesOf | src/app/api/availability/slots/route.ts:71 | the response lists the remaining rows' `HH:MM` times, in row order |
| AvailabilitySlotsRoute.Get | src/app/api/availability/slots/route.ts:10-79 | a missing doctor id or date gives 400, and only then; an unparsable date gives 500; an empty template gives `[]`; otherwise the template times not booked |
| AvailabilitySlotsRoute.BookedIff | src/app/api/availability/slots/route.ts:42-68 | a row is booked iff a PENDING/CONFIRMED appointment of the doctor starts that day exactly at the row's time; duration and overlap are ignored |
| AvailabilitySlotsRoute.OfferedIff | src/app/api/availability/slots/route.ts:22-71 | a time is offered iff it is an available row of the doctor for that weekday and no such appointment starts exactly at it |
| AvailabilitySlotsRoute.OfferedAscending | src/app/api/availability/slots/route.ts:28-71 | the offered rows keep the ascending time order and their strings are non-decreasing |
| DoctorAvailabilityRoute.Inserted | src/app/api/doctor/availability/route.ts:40-52 | the inserted rows are exactly `(doctor, dayOfWeek, time, true)` for the entries with truthy `isAvailable`, never more rows than entries |
| DoctorAvailabilityRoute.AvailabilityTable.Put | src/app/api/doctor/availability/route.ts:13-58 | no token gives 401, a failed verify 500, an unknown doctor 404, a non-array `slots` 400, and none of them changes the table; otherwise 200 and the table becomes the replace-all of this doctor's rows |
| DoctorAvailabilityRoute.RowsOfConcat | src/app/api/doctor/availability/route.ts:36-52 | selecting one doctor's rows distributes over appending rows |
| DoctorAvailabilityRoute.RowsExceptConcat | src/app/api/doctor/availability/route.ts:36-52 | removing one doctor's rows distributes over appending rows |
| DoctorAvailabilityRoute.RowsExceptTwice | src/app/api/doctor/availability/route.ts:36-38 | the delete is idempotent and leaves the doctor no rows |
| DoctorAvailabilityRoute.RowsOfOther | src/app/api/doctor/availability/route.ts:36-38 | deleting one doctor's rows leaves every other doctor's rows unchanged |
| DoctorAvailabilityRoute.InsertedOwn | src/app/api/doctor/availability/route.ts:44-51 | every inserted row belongs to the doctor |
| DoctorAvailabilityRoute.InsertedNotOther | src/app/api/doctor/availability/route.ts:44-51 | no inserted row belongs to another doctor |
| DoctorAvailabilityRoute.InsertedNone | src/app/api/doctor/availability/route.ts:41-52 | empty or all-false input inserts nothing |
| DoctorAvailabilityRoute.ReplaceAllSpec | src/app/api/doctor/availability/route.ts:35-52 | after a replace-all the doctor's rows are exactly the inserted ones and other doctors' rows are unchanged |
| DoctorAvailabilityRoute.ReplaceAllIdempotent | src/app/api/doctor/availability/route.ts:35-52 | applying the same payload twice stores the same rows as applying it once |
| DoctorAvailabilityRoute.NothingAvailableClears | src/app/api/doctor/availability/route.ts:41-52 | empty or all-false input leaves the doctor with no availability |
| AppointmentsRoute.BeforeColon | src/app/api/appointments/route.ts:69 | the first part of `time.split(':')`: the prefix before the first colon, colon-free |
| AppointmentsRoute.AfterColon | src/app/api/appointments/route.ts:69 | absent iff there is no colon; otherwise the text after the first colon, so that the string is rebuilt from both parts |
| AppointmentsRoute.JsNumber | src/app/api/appointments/route.ts:69 | `Number(part)` is defined exactly on digit strings (the empty string reads as 0) |
| AppointmentsRoute.OrNull | src/app/api/appointments/route.ts:85-86 | `x \|\| null` is null iff `x` is empty, else `x` itself |
| AppointmentsRoute.Booking | src/app/api/appointments/route.ts:15-116 | 401 without a token or with an invalid one, before the body is read; 400 on a missing field; 404 for an unknown patient or service; 500 when the doctor id names no doctor or the start instant is invalid (the insert throws); otherwise 201 and an appointment with start = date + hours*60 + minutes, end = start + duration, status PENDING and empty notes/receipt stored as null |
| AppointmentsRoute.AppointmentStore.Create | src/app/api/appointments/route.ts:15-116 | answers as `Booking`, whatever the table holds; a 201 appends exactly the created row, any other status (the failed insert included) leaves the table unchanged |
| AppointmentsRoute.Pad2Value | src/app/api/appointments/route.ts:69 | a two-digit field reads back as its number |
| AppointmentsRoute.Pad2NoColon | src/app/api/appointments/route.ts:69 | the split of `HH` followed by more text starts after the two digits |
| AppointmentsRoute.BookingTimeRoundTrip | src/app/api/appointments/route.ts:69-71 | every `HH:MM` time the slot routes offer is read back as the same minutes |
| AppointmentsRoute.DoubleBooking | src/app/api/appointments/route.ts:68-96 | no conflict check: on any table, a valid request sent twice is answered 201 both times and appends two rows of the same doctor over the same interval, overlapping when the service lasts a positive time |
| Middleware.DiffersAt | src/middleware.ts:12 | a path that differs from a prefix within the prefix's length does not start with it (raw `startsWith`) |
| Middleware.Route | src/middleware.ts:12-107 | under `/patient`, `/doctor`, `/book` a missing token redirects to `/login?from=<pathname>` and a failed verify does so and deletes `auth-token`; every other path except `/login` and `/signup` passes |
| Middleware.PatientAreas | src/middleware.ts:22-27 | under `/patient` and `/book` a verified request passes iff its role is PATIENT; any other role is sent to `/doctor/dashboard` |
| Middleware.DoctorArea | src/middleware.ts:49-54 | under `/doctor` a verified request passes iff its role is DOCTOR; any other role is sent to `/patient/dashboard` |
| Middleware.AuthPages | src/middleware.ts:93-105 | `/login` and `/signup` with a valid token redirect DOCTOR to `/doctor/dashboard` and every other role to `/patient/dashboard`; without a token or with an invalid one they pass |
| Middleware.NextIff | src/middleware.ts:12-107 | the complete table of when a request passes: the prefixes tried in the order `/patient`, `/doctor`, `/book`, then the auth pages |
| Middleware.RawPrefixes | src/middleware.ts:12-66 | `/doctorate` and `/bookmarks` are guarded too, because the test is a raw `startsWith` |
| SignupWizard.IsPasswordValid | src/components/SignupWizard.tsx:72-80 | a password is valid iff it has 8..12 characters, a lowercase letter, an uppercase letter, a digit and one of the listed special characters |
| SignupWizard.PasswordLengthBounds | src/components/SignupWizard.tsx:73 | 8 and 12 characters are accepted, 7 and 13 are not |
| SignupWizard.SpecialRequired | src/components/SignupWizard.tsx:77 | a password without a listed special character is refused |
| SignupWizard.ValidateStep | src/components/SignupWizard.tsx:82-116 | step 1 passes iff document type, number and birth date are filled and terms accepted; step 2 iff all six personal fields are filled; step 3 iff contact and both passwords are filled, the password is valid and both match; any other step passes |
| SignupWizard.DataUsageOptional | src/components/SignupWizard.tsx:83-91 | `dataUsageAccepted` has no effect on step 1 |
| SignupWizard.Step3Order | src/components/SignupWizard.tsx:101-114 | with every field present, an invalid password is reported before a mismatch |
| SignupWizard.Get | src/components/SignupWizard.tsx:9-31 | a text field holds text and a flag field holds a flag |
| SignupWizard.SetGet | src/components/SignupWizard.tsx:66-68 | setting a field stores the value there and changes no other field |
| SignupWizard.Wizard.constructor | src/components/SignupWizard.tsx:41-64 | the wizard starts at step 1, no error, with the DNI and +51 defaults |
| SignupWizard.Wizard.UpdateField | src/components/SignupWizard.tsx:66-69 | changes only the named field and clears the error |
| SignupWizard.Wizard.HandleNext | src/components/SignupWizard.tsx:118-122 | advances by exactly one step iff the step validates; otherwise stays and shows the step's message |
| SignupWizard.Wizard.HandleBack | src/components/SignupWizard.tsx:124-127 | goes back one step and clears the error |
| BookingWizard.FileCheck | src/app/patient/agendar/page.tsx:115-125 | a file is accepted iff its type is jpeg, png or webp and its size is at most 5 MiB; the type is checked first |
| BookingWizard.FileCheckBoundaries | src/app/patient/agendar/page.tsx:116-122 | exactly 5 MiB is accepted, one byte more is refused, and `image/jpg` is refused |
| BookingWizard.ValidateStep | src/app/patient/agendar/page.tsx:178-196 | step 1 needs a service, 2 a date, 3 a time, 4 a receipt file; any other step passes |
| BookingWizard.ErrorOr | src/app/patient/agendar/page.tsx:167 | `data.error \|\| fallback`: the server's message when there is one, else the fallback |
| BookingWizard.Wizard.constructor | src/app/patient/agendar/page.tsx:34-50 | the wizard starts at step 1 with nothing selected, no receipt and no error |
| BookingWizard.Wizard.LoadDoctors | src/app/patient/agendar/page.tsx:82-96 | the first doctor of a non-empty answer is selected; a failed or empty answer changes nothing |
| BookingWizard.Wizard.HandleFileSelect | src/app/patient/agendar/page.tsx:111-136 | no file changes nothing; a refused file keeps the previous file and sets the message; an accepted one is stored with its preview and clears the error; the uploaded URL is kept |
| BookingWizard.Wizard.RemoveReceipt | src/app/patient/agendar/page.tsx:138-145 | clears the file, the preview and the URL together |
| BookingWizard.Wizard.UploadReceipt | src/app/patient/agendar/page.tsx:147-176 | null without a file; the cached URL without uploading once one is set; otherwise the upload's URL, cached, or null with the server's message; the selections are untouched |
| BookingWizard.Wizard.HandleNext | src/app/patient/agendar/page.tsx:198-209 | advances by exactly one step iff the step validates and, at step 4 with nothing uploaded yet, the upload returns a URL; a failed upload blocks the advance |
| BookingWizard.Wizard.HandleBack | src/app/patient/agendar/page.tsx:211-214 | goes back one step and clears the error |
| BookingWizard.Wizard.HandleSubmit | src/app/patient/agendar/page.tsx:216-263 | refused with no request when service, doctor, date or time is missing; otherwise the request carries the selections and the (possibly just uploaded) receipt URL or null; it navigates iff the booking succeeds, and otherwise shows the server's message or the default (refused) or the connection message (thrown); a failed upload leaves its message; `loading` ends false; the step, the receipt, the selections and the notes are unchanged |
| DatePicker.JsYear | src/components/DatePicker.tsx:44-50 | `new Date(year, ...)` reads a year 0..99 as 1900 + year and any other year as itself |
| DatePicker.DaysInMonth | src/components/DatePicker.tsx:44-46 | the Gregorian month length: February has 29 days in a leap (JS) year and 28 otherwise, April, June, September and November have 30, and the other seven months 31 |
| DatePicker.YearLength | src/components/DatePicker.tsx:44-46 | the twelve month lengths add up to 366 in a leap year and 365 otherwise |
| DatePicker.FirstDayOfMonth | src/components/DatePicker.tsx:48-50 | the weekday of the 1st is in 0..6, Sunday being 0 |
| DatePicker.FirstDayFormula | src/components/DatePicker.tsx:48-50 | the weekday of the 1st is Zeller's month term plus the year's day shift (one day per year, two per leap year), modulo 7 |
| DatePicker.NextMonthFirstDay | src/components/DatePicker.tsx:44-50 | the next month's 1st falls `DaysInMonth` weekdays after this month's 1st, so the first weekdays and the month lengths agree (except across the two years where `new Date` jumps: -1 to 1900 and 1999 to 100) |
| DatePicker.FirstDayExamples | src/components/DatePicker.tsx:48-50 | 1 January 2024 is a Monday, 1 March 2024 a Friday, 1 February 2000 a Tuesday |
| DatePicker.PadStart2 | src/components/DatePicker.tsx:54 | `String(n).padStart(2, '0')` of a number below 100 is its two-digit form |
| DatePicker.Pad2Parse | src/components/DatePicker.tsx:54 | a two-digit field reads back as its number |
| DatePicker.FormatDateRoundTrip | src/components/DatePicker.tsx:52-56 | the emitted text is `YYYY-MM-DD`, dashes in place, and reading it back gives the year, the 0-based month and the day |
| DatePicker.FormatDateInjective | src/components/DatePicker.tsx:52-56 | two different dates are never emitted as the same text |
| DatePicker.PrevMonth | src/components/DatePicker.tsx:59-66 | January/Y goes to December/Y-1, any other month to the previous one of the same year: the month count drops by exactly one |
| DatePicker.NextMonth | src/components/DatePicker.tsx:68-75 | December/Y goes to January/Y+1, any other month to the next one of the same year: the month count grows by exactly one |
| DatePicker.PrevNextInverse | src/components/DatePicker.tsx:59-75 | Prev after Next, and Next after Prev, return the original (month, year) |
| DatePicker.Calendar | src/components/DatePicker.tsx:89-128 | `firstDay` blank cells, then the day buttons 1..daysInMonth in order, each marked selected, today or plain |
| DatePicker.OneSelectedCell | src/components/DatePicker.tsx:101-104 | a cell is marked selected only for the selected date's day in the shown month and year, and at most one cell is |
| DatePicker.Picker.constructor | src/components/DatePicker.tsx:21-23 | the picker opens on today's month and year, closed |
| DatePicker.Picker.HandlePrevMonth | src/components/DatePicker.tsx:59-66 | the shown month becomes `PrevMonth` of the old one |
| DatePicker.Picker.HandleNextMonth | src/components/DatePicker.tsx:68-75 | the shown month becomes `NextMonth` of the old one |
| DatePicker.Picker.HandleDateClick | src/components/DatePicker.tsx:52-57 | emits the clicked day of the shown month as `YYYY-MM-DD` and closes |
| DatePicker.Picker.HandleToday | src/components/DatePicker.tsx:77-82 | emits today's date as `YYYY-MM-DD` and closes |
| DatePicker.Picker.HandleClear | src/components/DatePicker.tsx:84-87 | emits the empty string and closes |
| DatePicker.Picker.RenderCalendar | src/components/DatePicker.tsx:89-128 | the two loops push exactly the calendar cells of the shown month |
| Clinic.PatientIds | src/app/doctor/dashboard/page.tsx:74 | `appointments.map(apt => apt.patientId)`: same length, i-th id of the i-th appointment |
| PatientAppointments.Upcoming | src/app/patient/citas/page.tsx:38-40 | holds exactly the appointments with `startTime > now` and status other than CANCELLED |
| PatientAppointments.Past | src/app/patient/citas/page.tsx:41-43 | holds exactly the appointments with `startTime <= now` or status CANCELLED |
| PatientAppointments.Partition | src/app/patient/citas/page.tsx:38-43 | for a fixed `now` every appointment lands in exactly one list: the two lists together are the input as a multiset |
| PatientAppointments.KeepNewestFirst | src/app/patient/citas/page.tsx:31-43 | both lists keep the query's descending start order |
| PatientAppointments.StatusColor | src/app/patient/citas/page.tsx:45-53 | an unknown status, and only an unknown one, gets the gray default |
| PatientAppointments.StatusColorsDistinct | src/app/patient/citas/page.tsx:45-53 | the four statuses get four different classes |
| DoctorDashboard.WeekStart | src/app/doctor/dashboard/page.tsx:65-66 | the week starts on the Sunday of the current week: `weekday` days before today, so today lies in the 7-day window |
| DoctorDashboard.TodayAppointments | src/app/doctor/dashboard/page.tsx:56-63 | exactly the non-cancelled appointments starting in [today 00:00, tomorrow 00:00) |
| DoctorDashboard.WeekAppointments | src/app/doctor/dashboard/page.tsx:65-72 | exactly the non-cancelled appointments starting in the half-open 7-day week window |
| DoctorDashboard.TodayWithinWeek | src/app/doctor/dashboard/page.tsx:56-72 | today's list is the week's list restricted to today, so every appointment of today is in the week's list |
| DoctorDashboard.KeepAscending | src/app/doctor/dashboard/page.tsx:39-72 | both filters keep the query's ascending start order |
| DoctorDashboard.TotalPatientsSpec | src/app/doctor/dashboard/page.tsx:74-75 | the count is the number of distinct patient ids, cancelled appointments included, and never exceeds the number of appointments |
| ClinicalRecords.TrimStartSpec | src/components/ClinicalRecordsManager.tsx:77 | the front trim is a suffix of the input, everything it drops is JS white space, and it does not start with white space |
| ClinicalRecords.TrimEndSpec | src/components/ClinicalRecordsManager.tsx:77 | the back trim is a prefix of the input, everything it drops is JS white space, and it does not end with white space |
| ClinicalRecords.TrimSpec | src/components/ClinicalRecordsManager.tsx:77-91 | `trim()` is a slice of the input with only white space cut at both ends, does not begin or end with white space, and is empty iff the input is all white space |
| ClinicalRecords.TrimIdempotent | src/components/ClinicalRecordsManager.tsx:89-91 | trimming twice equals trimming once |
| ClinicalRecords.BuildBody | src/components/ClinicalRecordsManager.tsx:86-93 | the body carries the trimmed diagnosis and treatment, trimmed notes or null when they trim to empty, and the appointment id or null when it is empty |
| ClinicalRecords.GuardedBodyFilled | src/components/ClinicalRecordsManager.tsx:76-93 | once the save guard passes, the body's date, diagnosis and treatment are non-empty |
| ClinicalRecords.ReplaceById | src/components/ClinicalRecordsManager.tsx:113 | same length; the record with the saved id is replaced and every other record is unchanged in place |
| ClinicalRecords.Prepend | src/components/ClinicalRecordsManager.tsx:115 | the saved record comes first, followed by the old list: the length grows by one |
| ClinicalRecords.RemoveById | src/components/ClinicalRecordsManager.tsx:136 | exactly the records with another id remain |
| ClinicalRecords.RemoveByIdOrder | src/components/ClinicalRecordsManager.tsx:136 | the remaining records keep their order: the delete distributes over concatenation and keeps a single record exactly when its id differs |
| ClinicalRecords.ReplaceKeepsIds | src/components/ClinicalRecordsManager.tsx:113 | replacing keeps every position's id, and the saved record appears iff its id was listed |
| ClinicalRecords.RemoveByIdSpec | src/components/ClinicalRecordsManager.tsx:136 | the list shrinks by exactly the number of records with that id, and deleting again changes nothing |
| ClinicalRecords.RequestFor | src/components/ClinicalRecordsManager.tsx:95-108 | a PUT to the edited record's id when editing, a POST otherwise, with the same body |
| ClinicalRecords.RecordsManager.constructor | src/components/ClinicalRecordsManager.tsx:37-48 | the records start as given, the form empty and hidden, no message |
| ClinicalRecords.RecordsManager.ResetForm | src/components/ClinicalRecordsManager.tsx:50-58 | clears every form field, the editing target and the form visibility; the list is untouched |
| ClinicalRecords.RecordsManager.OpenAddForm | src/components/ClinicalRecordsManager.tsx:60-64 | an empty form dated today, shown, not editing |
| ClinicalRecords.RecordsManager.OpenEditForm | src/components/ClinicalRecordsManager.tsx:66-74 | loads the record's fields, null notes and appointment becoming `''`, and shows the form |
| ClinicalRecords.RecordsManager.StoreSaved | src/components/ClinicalRecordsManager.tsx:110-118 | replaces the record when editing, prepends it otherwise, resets the form and sets the updated/created message |
| ClinicalRecords.RecordsManager.HandleSave | src/components/ClinicalRecordsManager.tsx:76-128 | refused with no request when trimmed diagnosis, trimmed treatment or date is empty; otherwise sends the request for the body, stores the saved record on success, keeps the list with an error message on failure, and `saving` ends false |
| ClinicalRecords.RecordsManager.HandleDelete | src/components/ClinicalRecordsManager.tsx:130-143 | a request is sent iff confirmed; success removes exactly the records with that id; a thrown request shows the error; a refused one changes nothing |
| AppointmentActions.TargetStatus | src/components/AppointmentActions.tsx:27 | the only target statuses are CONFIRMED (for confirm) and CANCELLED (for cancel) |
| AppointmentActions.StatusAfter | src/components/AppointmentActions.tsx:27-44 | from PENDING the status becomes `TargetStatus(action)` (CONFIRMED or CANCELLED) on an OK response and stays unchanged otherwise |
| AppointmentActions.Terminal | src/components/AppointmentActions.tsx:23-25 | CONFIRMED and CANCELLED are terminal: no sequence of clicks changes them, since no buttons are shown |
| AppointmentActions.FirstOk | src/components/AppointmentActions.tsx:36-38 | none iff no response was OK; otherwise the action of an OK click with no OK click before it |
| AppointmentActions.RunFromPending | src/components/AppointmentActions.tsx:23-44 | from PENDING, a sequence of clicks ends at the target of the first OK click, or PENDING if none was OK |
| AppointmentActions.StatusActions.constructor | src/components/AppointmentActions.tsx:19-20 | the local status starts as the appointment's, not loading |
| AppointmentActions.StatusActions.UpdateStatus | src/components/AppointmentActions.tsx:27-44 | `loading` is true while the request runs and false afterwards on every path; the status changes only on an OK response |
| UploadRoute.LastSegmentSpec | src/app/api/upload/route.ts:52 | `split('.').pop()` is the dot-free suffix after the last `.`, or the whole name without a dot |
| UploadRoute.Extension | src/app/api/upload/route.ts:52 | the extension is never empty and never holds a dot |
| UploadRoute.Upload | src/app/api/upload/route.ts:9-72 | no token or an invalid one gives 401; a URL is returned iff a file is present, its type is allowed, its size is at most 5 MiB and the write succeeds, with status 201 and `/uploads/receipts/receipt_<timestamp>.<ext>` |
| UploadRoute.CheckOrder | src/app/api/upload/route.ts:14-48 | the checks run in the order token, verify, file present, type, size, each with its own 401/400 |
| UploadRoute.SizeBoundary | src/app/api/upload/route.ts:42-48 | exactly 5·1024·1024 bytes is accepted; one byte more is rejected with 400 |
| UploadRoute.LastSegmentAppend | src/app/api/upload/route.ts:52 | appending dot-free text extends the last segment by that text |
| UploadRoute.ExtensionCases | src/app/api/upload/route.ts:52 | `base.ext` gives `ext`, a name without a dot gives the whole name, and a trailing dot gives `jpg` |
| UploadRoute.FilenameRoundTrip | src/app/api/upload/route.ts:51-53 | the filename is `receipt_`, the timestamp's digits (which read back as the timestamp), a dot and the extension |
| UploadRoute.FilenameInjective | src/app/api/upload/route.ts:51-53 | equal filenames mean equal timestamps and equal extensions |
| UploadRoute.PickerStricterThanRoute | src/app/api/upload/route.ts:33-48 | every file the booking page accepts passes the route's checks; `image/jpg` passes the route but not the page |
| DoctorPatients.OwnAppointments | src/app/doctor/pacientes/page.tsx:32-36 | a patient's nested appointments are exactly theirs with this doctor |
| DoctorPatients.Latest | src/app/doctor/pacientes/page.tsx:54-55 | none iff there are no appointments; otherwise one of them with the maximum `startTime`, and no earlier one has that start time (the first maximum, as index 0 of the stable descending sort) |
| DoctorPatients.EntriesFor | src/app/doctor/pacientes/page.tsx:51-56 | one entry per id, in the order of the ids, each built from that patient's own appointments |
| DoctorPatients.Patients | src/app/doctor/pacientes/page.tsx:46-60 | the `forEach` over the doctor's appointments builds the entries of the distinct patient ids in first-appearance order |
| DoctorPatients.PatientsSpec | src/app/doctor/pacientes/page.tsx:46-60 | exactly one entry per distinct patient, never more entries than appointments, `appointmentCount` is the number of that patient's appointments with this doctor, `lastAppointment` the latest of them |
| PatientDashboard.NextAppointments | src/app/patient/dashboard/page.tsx:57-59 | `upcoming.slice(0, 5)`: the first min(5, upcoming) upcoming appointments |
| PatientDashboard.NextAreSoonest | src/app/patient/dashboard/page.tsx:41-123 | with the ascending query, the shown appointments are upcoming, in ascending order, and none left out starts before a shown one |
| PatientDashboard.SummaryCounts | src/app/patient/dashboard/page.tsx:57-62 | the total counts every appointment, past and cancelled too (upcoming + the rest); pending payments are the PENDING ones; the list is cut short iff there are more than five upcoming |
| PatientPayments.Pending | src/app/patient/pagos/page.tsx:41 | exactly the PENDING payments |
| PatientPayments.Completed | src/app/patient/pagos/page.tsx:42 | exactly the COMPLETED payments |
| PatientPayments.ListsDisjoint | src/app/patient/pagos/page.tsx:41-42 | no payment is in both lists, a FAILED one is in neither, and the two counts add up to at most the number of payments |
| PatientPayments.KeepQueryOrder | src/app/patient/pagos/page.tsx:34-42 | both lists keep the query's newest-first order |
| PatientPayments.StatusIcon | src/app/patient/pagos/page.tsx:46-53 | an unknown status, and only an unknown one, gets the gray clock |
| PatientPayments.StatusColor | src/app/patient/pagos/page.tsx:55-62 | an unknown status, and only an unknown one, gets the gray badge |
| PatientPayments.KnownStatusesDistinct | src/app/patient/pagos/page.tsx:46-62 | the three known statuses get three different icons and three different colours |
| DoctorAgenda.Loaded | src/app/doctor/agenda/page.tsx:24-40 | exactly this doctor's appointments starting at or after now |
| DoctorAgenda.LoadedAscending | src/app/doctor/agenda/page.tsx:32 | the loaded list is in ascending start order |
| DoctorAgenda.Labels | src/app/doctor/agenda/page.tsx:56-61 | each appointment's heading, in list order |
| DoctorAgenda.Group | src/app/doctor/agenda/page.tsx:62-63 | a day's group holds exactly the appointments with that heading |
| DoctorAgenda.GroupByDate | src/app/doctor/agenda/page.tsx:55-65 | the `reduce` produces one key per distinct heading in first-appearance order, each mapped to its group |
| DoctorAgenda.GroupsPartition | src/app/doctor/agenda/page.tsx:55-65 | every appointment is in its own heading's group and in no other; every heading has appointments |
| DoctorAgenda.GroupAscending | src/app/doctor/agenda/page.tsx:62-64 | within a group the appointments keep the input's ascending order |
| DoctorAgenda.HeadingsInFirstAppearanceOrder | src/app/doctor/agenda/page.tsx:55-81 | any appointment under a later heading comes after some appointment under every earlier heading |
| DoctorAgenda.EveryAppointmentShownOnce | src/app/doctor/agenda/page.tsx:81-88 | the cards under all headings add up to the number of loaded appointments |

## Left out

- Prisma queries and inserts, JWT verification, password hashing, the doctor e-mail notification after a booking, and the directory creation and file write of the upload route are foreign calls. The tables they read and the outcomes the model depends on are parameters.
- AppointmentsRoute.Booking: the insert fails in the model only for a doctor id that names no doctor or an invalid start instant (both answered 500); a database that is unreachable or refuses the row for another reason is not modelled.
- `Date` construction, `getDay`, `setHours`/`setDate`, time zones, daylight saving time and the locale formatting of dates (`toLocaleDateString`, `toLocaleTimeString`, `toISOString`): a day is 1440 minutes, and the local midnight, weekday, parsed dates and date headings are inputs.
- JavaScript `Number()` on strings other than plain digit strings (signs, white space, decimals, exponents, hex): the booking route's time parse reads only digit strings.
- Floating point: payment amounts and their sums, `toFixed`, and the timeline bar widths.
- Concurrency: requests run one at a time. No race between two bookings, and no partial failure between the delete and the insert of the availability replace-all.
- FileReader asynchrony: the receipt preview is set together with the file.
- React rendering, markup, navigation details and the `setTimeout` that clears messages.
- The middleware `matcher` configuration: every path is given to `Middleware.Route`.
- The dashboards' display-only strings (names, prices, formatted times).
- AvailabilityRoute.SlotsAscending: requires a duration above -300 minutes; with a more negative duration the candidate starts run past midnight and the printed `HH:mm` labels wrap around.
- DoctorPatients.Latest: returns the first appointment with the maximum start time, which is what index 0 of the stable descending sort gives; the in-place reordering of the nested array by that sort is not modelled.
- AppointmentsRoute.JsNumber: the empty string reads as 0, like `Number('')`; other JavaScript number syntax is not modelled (see above).
