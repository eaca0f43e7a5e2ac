# AYUR_VED_CONNECT appointment scheduling, modelled in Dafny

This project models the appointment-scheduling core of AYUR_VED_CONNECT, an
Ayurvedic consultation web app. The core has five parts:

- **Availability** (`AvailabilitySetup.tsx`). A doctor keeps weekly
  availability rules, one per weekday. Adding a rule expands it into concrete
  `time_slots` rows for the next 30 days.
- **Slot picking** (`CalendarSlotPicker.tsx`). A patient queries the free
  slots of one doctor and one date, and clicking a slot locks it for five
  minutes.
- **Booking wizard** (`BookingFlow.tsx`). Four steps: date and time, details,
  OTP and confirmation.
- **Appointment lists**. The doctor filters and updates appointments
  (`AppointmentsList.tsx`). The patient sees them split into upcoming and past
  (`Appointments.tsx`).
- **Dashboard and directory**. The doctor's dashboard shows counters
  (`DoctorDashboard.tsx`), and the doctor directory filters the listed doctors
  (`Doctors.tsx`).

Conventions used throughout:

- Clock times are minutes since midnight.
- Calendar dates are day numbers counted from 1970-01-01, which was a
  Thursday, so `getDay()` is `(day + 4) % 7`.
- Instants such as `now` and `locked_until` are milliseconds since the epoch.
- Slot ids are naturals that the store issues in sequence. They stand in for
  the database's uuids.
- Database I/O becomes in-memory state. Every write takes a `fails` flag, and
  a failed write changes nothing.

The modules are:

- `Common`: `Option`, `Array.prototype.filter` and subsequences.
- `Text`: the `\d` class, ASCII `toLowerCase`, `includes`, `trim` and decimal
  printing.
- `TimeSlots`: the `time_slots` rows and the `SlotStore` table.
- `AvailabilitySetup`, `CalendarSlotPicker`, `BookingFlow`,
  `AppointmentsList`, `Appointments`, `DoctorDashboard` and `Doctors`: one
  module per source component.

Each source file keeps its own vocabulary:

- Modes are 'in-person' in `time_slots` and 'in_person' on the mock pages.
- Appointment statuses are 'booked' in the doctor's list and 'confirmed' on
  the patient's page.

What the code actually does, and this model follows:

- The lock write is unconditional. There is no compare-and-set and no check
  of `is_booked` or of an existing holder.
- Without a signed-in user, the update body loses its `locked_by` field, so
  the previous holder stays.
- The availability query trusts the stored `is_locked` flag and never looks
  at `locked_until`.
- Generation does not de-duplicate slots and ignores `is_active`.
- Deleting or updating a rule leaves its generated slots in place.
- `updateRule` applies any patch. A patch that sets `day_of_week` can give
  two rules the same day (`UpdateCanDuplicateDay`). The only caller in the
  page patches `is_active` alone (`ToggleActive`), and that keeps the days
  distinct.
- `weeklyAppointments` counts every appointment dated from seven days ago
  onwards, future ones included.

## Model

| member | source | states |
|---|---|---|
| TimeSlots.Stored | src/integrations/supabase/types.ts:214-228 | a stored row carries its id and starts with null `locked_by` and `locked_until` |
| TimeSlots.Numbered | src/components/doctor/AvailabilitySetup.tsx:186-193 | a batch insert adds exactly the ids `base .. base+n-1`, the i-th holding the i-th draft |
| TimeSlots.SlotStore.InsertAll | src/components/doctor/AvailabilitySetup.tsx:187-192 | a successful batch insert adds all drafts under fresh ids; a failed one writes nothing; every row stays filed under its own id |
| AvailabilitySetup.Saved | src/components/doctor/AvailabilitySetup.tsx:81-85 | the saved rule carries the id the store assigned and every field of the form's rule unchanged |
| AvailabilitySetup.SortByDay | src/components/doctor/AvailabilitySetup.tsx:89 | the re-sort keeps the list's length (its order and contents are in the next rows) |
| AvailabilitySetup.InsertByDay | src/components/doctor/AvailabilitySetup.tsx:89 | insertion into the weekday order adds exactly one element and loses none |
| AvailabilitySetup.SortByDayIsSort | src/components/doctor/AvailabilitySetup.tsx:89 | the sort by `day_of_week` is ordered and a permutation of its input |
| AvailabilitySetup.InsertByDaySorted | src/components/doctor/AvailabilitySetup.tsx:89 | inserting into a weekday-sorted list keeps it sorted |
| AvailabilitySetup.SortAfterAppend | src/components/doctor/AvailabilitySetup.tsx:89 | appending a rule for a new weekday and re-sorting is one ordered insertion |
| AvailabilitySetup.InsertByDayAscending | src/components/doctor/AvailabilitySetup.tsx:74-89 | inserting a rule for a weekday the list lacks keeps weekdays strictly ascending |
| AvailabilitySetup.AddRuleKeepsDaysUnique | src/components/doctor/AvailabilitySetup.tsx:74-89 | after the duplicate-day check, append-then-sort keeps one rule per weekday, in order, and holds the old rules plus the new one |
| AvailabilitySetup.UpdateRules | src/components/doctor/AvailabilitySetup.tsx:112-114 | the rule with the id becomes its merge with the patch; every other rule and the length are unchanged |
| AvailabilitySetup.Merge | src/components/doctor/AvailabilitySetup.tsx:113 | an update that sets no field leaves the rule as it was |
| AvailabilitySetup.MergeKeepsUnpatched | src/components/doctor/AvailabilitySetup.tsx:103-113 | each field, the id included, takes the update's value when the update sets it and keeps the rule's value otherwise |
| AvailabilitySetup.UpdateRulesIdempotent | src/components/doctor/AvailabilitySetup.tsx:112-114 | applying the same update twice equals applying it once |
| AvailabilitySetup.UpdateKeepsDaysUnique | src/components/doctor/AvailabilitySetup.tsx:112-114 | an update that does not set the weekday keeps weekdays strictly ascending |
| AvailabilitySetup.UpdateCanDuplicateDay | src/components/doctor/AvailabilitySetup.tsx:103-114 | some update that sets the weekday breaks one-rule-per-day |
| AvailabilitySetup.DeleteRules | src/components/doctor/AvailabilitySetup.tsx:132 | no rule with the deleted id remains |
| AvailabilitySetup.DeleteRemovesExactly | src/components/doctor/AvailabilitySetup.tsx:132 | deleting keeps exactly the rules with another id, in their order |
| AvailabilitySetup.DeleteKeepsDaysUnique | src/components/doctor/AvailabilitySetup.tsx:132 | deleting keeps weekdays strictly ascending |
| AvailabilitySetup.WeekDay | src/components/doctor/AvailabilitySetup.tsx:151 | the weekday of a day number is in 0..6 |
| AvailabilitySetup.ModesOf | src/components/doctor/AvailabilitySetup.tsx:164-166 | 'both' gives exactly online then in-person; a single mode gives exactly itself |
| AvailabilitySetup.StepDrafts | src/components/doctor/AvailabilitySetup.tsx:168-178 | one draft per mode, in mode order, each the doctor's, on the step's date and range, with that mode, neither booked nor locked |
| AvailabilitySetup.StepSlots | src/components/doctor/AvailabilitySetup.tsx:168-178 | the loop over the modes emits one draft per mode for the step, in mode order |
| AvailabilitySetup.WalkDay | src/components/doctor/AvailabilitySetup.tsx:160-182 | the `while (start < end)` walk emits exactly the day's drafts, only whole steps included |
| AvailabilitySetup.BuildSlots | src/components/doctor/AvailabilitySetup.tsx:143-184 | the nested day, time and mode loops produce exactly the generated sequence over the 30-day horizon |
| AvailabilitySetup.DaySlotsFit | src/components/doctor/AvailabilitySetup.tsx:157-181 | each draft of a day lies inside the window, lasts one duration, has a rule mode and is neither booked nor locked |
| AvailabilitySetup.GeneratedFit | src/components/doctor/AvailabilitySetup.tsx:146-181 | every generated slot is the doctor's, on a horizon day of the rule's weekday, inside the window, exactly one duration long, free and unlocked |
| AvailabilitySetup.StepsPeel | src/components/doctor/AvailabilitySetup.tsx:160-163 | one walk step consumes one whole step, and a partial tail yields none |
| AvailabilitySetup.DaySlotsCount | src/components/doctor/AvailabilitySetup.tsx:160-166 | a day yields floor((end-start)/duration) times the number of modes drafts, and none when end <= start |
| AvailabilitySetup.DayPartDates | src/components/doctor/AvailabilitySetup.tsx:146-181 | a horizon day contributes drafts of that date only |
| AvailabilitySetup.DayPartCount | src/components/doctor/AvailabilitySetup.tsx:151-166 | a horizon day contributes steps times modes drafts when its weekday matches the rule's, and none otherwise |
| AvailabilitySetup.DayPartFit | src/components/doctor/AvailabilitySetup.tsx:146-181 | every draft of a horizon day fits the rule and carries that day's date |
| AvailabilitySetup.OnNewestDay | src/components/doctor/AvailabilitySetup.tsx:146-181 | the drafts dated the newest horizon day are exactly what that day contributed |
| AvailabilitySetup.OnOlderDay | src/components/doctor/AvailabilitySetup.tsx:146-181 | a later horizon day adds nothing to an earlier date |
| AvailabilitySetup.GeneratedDates | src/components/doctor/AvailabilitySetup.tsx:146-148 | all drafts fall within the horizon |
| AvailabilitySetup.GeneratedPerDay | src/components/doctor/AvailabilitySetup.tsx:146-166 | per date, the count is the per-day count on matching horizon days and zero on every other date |
| AvailabilitySetup.DaySlotsAt | src/components/doctor/AvailabilitySetup.tsx:160-181 | the draft at step t and mode m starts t durations after the window opens and carries that mode |
| AvailabilitySetup.DaySlotsContiguous | src/components/doctor/AvailabilitySetup.tsx:160-181 | within a day, ranges ascend without overlap and each step starts where the previous one ends |
| AvailabilitySetup.RuleEditor.constructor | src/components/doctor/AvailabilitySetup.tsx:38 | the rule list starts empty |
| AvailabilitySetup.RuleEditor.GenerateTimeSlots | src/components/doctor/AvailabilitySetup.tsx:140-197 | the generated drafts are inserted in one batch when there are any; an insert error is swallowed and writes nothing |
| AvailabilitySetup.RuleEditor.AddRule | src/components/doctor/AvailabilitySetup.tsx:73-101 | a duplicate weekday is refused with nothing changed; a failed save changes nothing; otherwise the rule is appended, the list re-sorted, one-rule-per-day kept, and its slots generated |
| AvailabilitySetup.RuleEditor.UpdateRule | src/components/doctor/AvailabilitySetup.tsx:103-121 | on success the list becomes the merged list; on error it is unchanged |
| AvailabilitySetup.RuleEditor.ToggleActive | src/components/doctor/AvailabilitySetup.tsx:336-341 | the active switch patches `is_active` only, and keeps weekdays strictly ascending |
| AvailabilitySetup.RuleEditor.DeleteRule | src/components/doctor/AvailabilitySetup.tsx:123-138 | on success the rules with that id are dropped, order kept; on error nothing changes |
| CalendarSlotPicker.Available | src/components/calendar/CalendarSlotPicker.tsx:39-50 | a booked or locked slot is never offered; under the 'all' filter the mode plays no part |
| CalendarSlotPicker.AvailableAmong | src/components/calendar/CalendarSlotPicker.tsx:39-50 | a row is selected iff doctor and date match, it is neither booked nor locked, and its mode matches unless the filter is 'all' |
| CalendarSlotPicker.AvailableRows | src/components/calendar/CalendarSlotPicker.tsx:39-50 | the query's row set is exactly the stored rows passing that test |
| CalendarSlotPicker.InsertByStart | src/components/calendar/CalendarSlotPicker.tsx:46 | ordered insertion by `start_time` adds one slot and loses none |
| CalendarSlotPicker.InsertByStartSorted | src/components/calendar/CalendarSlotPicker.tsx:46 | ordered insertion keeps the list sorted by start time |
| CalendarSlotPicker.QueryStep | src/components/calendar/CalendarSlotPicker.tsx:39-46 | one more row looked at joins the sorted result exactly when it is available |
| CalendarSlotPicker.QueryAvailable | src/components/calendar/CalendarSlotPicker.tsx:39-52 | the result is sorted by start time and holds every available row exactly once |
| CalendarSlotPicker.Locked | src/components/calendar/CalendarSlotPicker.tsx:72-76 | the row becomes locked until the given instant, held by the user if there is one (else the old holder stays), with every other column unchanged |
| CalendarSlotPicker.LockWrite | src/components/calendar/CalendarSlotPicker.tsx:70-77 | only the row with that id changes, whatever its booked or lock state; no row appears or disappears |
| CalendarSlotPicker.SecondLockerWins | src/components/calendar/CalendarSlotPicker.tsx:70-77 | of two successive lockers, the second holds the row with its own expiry |
| CalendarSlotPicker.LockHidesExactlyThatRow | src/components/calendar/CalendarSlotPicker.tsx:39-77 | after a lock, every availability query returns what it did before minus that row, with no clock involved, so expiry never brings it back |
| CalendarSlotPicker.FirstKeys | src/components/calendar/CalendarSlotPicker.tsx:98-105 | the group keys are distinct and cover every slot's range |
| CalendarSlotPicker.GroupSlots | src/components/calendar/CalendarSlotPicker.tsx:98-105 | the reduce yields the keys in first-insertion order, and under each key the slots with that range in fetch order |
| CalendarSlotPicker.GroupStep | src/components/calendar/CalendarSlotPicker.tsx:99-102 | one more slot adds its key when new, and a new key's group starts empty |
| CalendarSlotPicker.GroupStepAt | src/components/calendar/CalendarSlotPicker.tsx:103 | one more slot is pushed onto its own key's group and leaves every other group alone |
| CalendarSlotPicker.GroupsPartition | src/components/calendar/CalendarSlotPicker.tsx:98-105 | a slot is in a group iff the key is its own range, and each group keeps fetch order |
| CalendarSlotPicker.FirstKeysNonEmpty | src/components/calendar/CalendarSlotPicker.tsx:100-103 | no group is empty |
| CalendarSlotPicker.GroupSizesTotal | src/components/calendar/CalendarSlotPicker.tsx:98-105 | the group sizes add up to the number of fetched slots |
| CalendarSlotPicker.SlotPicker.constructor | src/components/calendar/CalendarSlotPicker.tsx:23-25 | the picker opens on today, with all modes and no slots |
| CalendarSlotPicker.SlotPicker.FetchAvailableSlots | src/components/calendar/CalendarSlotPicker.tsx:34-62 | on success the shown slots are the sorted available rows, each once; on error they are kept |
| CalendarSlotPicker.SlotPicker.SelectDate | src/components/calendar/CalendarSlotPicker.tsx:28-32 | a new date re-runs the query for that date |
| CalendarSlotPicker.SlotPicker.SelectMode | src/components/calendar/CalendarSlotPicker.tsx:28-32 | a new mode filter re-runs the query with it |
| CalendarSlotPicker.SlotPicker.HandleSlotSelect | src/components/calendar/CalendarSlotPicker.tsx:64-87 | on success the lock is written for now + 5 minutes and the caller gets its copy with only `locked_until` replaced; on error nothing changes and no callback is made |
| BookingFlow.IndexOf | src/pages/BookingFlow.tsx:412 | `indexOf` finds the first position of the step, or -1 when absent |
| BookingFlow.Highlighted | src/pages/BookingFlow.tsx:409-414 | progress circle i is highlighted iff i <= the current step's index |
| BookingFlow.SanitiseOtp | src/pages/BookingFlow.tsx:278 | the code has at most 6 characters, all digits, is a prefix of the input's digits, and is as long as possible |
| BookingFlow.SanitiseOtpIdempotent | src/pages/BookingFlow.tsx:278 | sanitising twice equals sanitising once |
| BookingFlow.SanitiseOtpKeepsCode | src/pages/BookingFlow.tsx:278 | a string of up to 6 digits passes unchanged |
| BookingFlow.PadStart2 | src/pages/BookingFlow.tsx:183 | `padStart(2, '0')` yields two characters ending in the input, zeros in front |
| BookingFlow.TimerLabelReadsBack | src/pages/BookingFlow.tsx:183 | the label is minutes, a colon and two digits of seconds below 60, and 60 * minutes + seconds is the timer value |
| BookingFlow.InitialTimerLabel | src/pages/BookingFlow.tsx:51 | the initial 300 seconds read 5:00 |
| BookingFlow.Booking.constructor | src/pages/BookingFlow.tsx:45-51 | the wizard starts on the date-and-time step with nothing chosen and 300 seconds on the timer |
| BookingFlow.Booking.SelectDate | src/pages/BookingFlow.tsx:101 | the calendar sets or clears the date |
| BookingFlow.Booking.HandleSlotSelect | src/pages/BookingFlow.tsx:62-65 | the slot's time and mode are remembered |
| BookingFlow.Booking.HandleBookSlot | src/pages/BookingFlow.tsx:67-73 | moves to details iff a date and a slot are chosen, else nothing changes |
| BookingFlow.Booking.EnterSymptoms | src/pages/BookingFlow.tsx:197 | the text area sets the symptoms |
| BookingFlow.Booking.HandleSubmitDetails | src/pages/BookingFlow.tsx:75-78 | moves to the OTP step with no check of its own |
| BookingFlow.Booking.ClickContinue | src/pages/BookingFlow.tsx:211-213 | the continue button reaches the OTP step iff the symptoms are not blank |
| BookingFlow.Booking.EnterOtp | src/pages/BookingFlow.tsx:278 | the field holds the sanitised input |
| BookingFlow.Booking.HandleOtpVerification | src/pages/BookingFlow.tsx:80-85 | moves to confirmation iff the code has 6 characters, else nothing changes |
| BookingFlow.Booking.BackFromDetails | src/pages/BookingFlow.tsx:205 | back to date and time, every choice kept |
| BookingFlow.Booking.BackFromOtp | src/pages/BookingFlow.tsx:287 | back to details, every choice kept |
| Text.TrimEmptyIffBlank | src/pages/BookingFlow.tsx:213 | `trim()` is empty exactly for all-whitespace strings |
| AppointmentsList.Hit | src/components/doctor/AppointmentsList.tsx:61-66 | an empty term is contained in every name and phone, so it matches exactly the appointments with a profile holding a name or a phone |
| AppointmentsList.Shown | src/components/doctor/AppointmentsList.tsx:52-69 | status 'all' with an empty term shows every appointment; any other status hides appointments with a different status |
| AppointmentsList.FilterAppointments | src/components/doctor/AppointmentsList.tsx:52-69 | the list holds exactly the appointments passing the status filter (unless 'all') and the search (unless empty); the defaults keep everything |
| AppointmentsList.FilterAppointmentsIsOneFilter | src/components/doctor/AppointmentsList.tsx:52-69 | the two stages equal one filter by both tests, and the result is a subsequence of the list |
| AppointmentsList.SearchNarrows | src/components/doctor/AppointmentsList.tsx:61-66 | a search term containing the previous one shows a subsequence of the previous result |
| AppointmentsList.FilterKeepsOrder | src/components/doctor/AppointmentsList.tsx:39-40 | filtering keeps the fetch order (date descending, then start ascending) |
| AppointmentsList.SetStatus | src/components/doctor/AppointmentsList.tsx:80-82 | the appointments with that id take the new status, and nothing else changes |
| AppointmentsList.SetStatusTwice | src/components/doctor/AppointmentsList.tsx:80-82 | a second status change of the same appointment overrides the first |
| AppointmentsList.CancelThenRestore | src/components/doctor/AppointmentsList.tsx:209-236 | cancelling a booked appointment and restoring it gives the list back unchanged |
| AppointmentsList.SetStatusKeepsOrder | src/components/doctor/AppointmentsList.tsx:80-82 | a status change keeps the fetch order |
| AppointmentsList.OfferedStatuses | src/components/doctor/AppointmentsList.tsx:209-236 | a booked appointment offers exactly completed and cancelled, a cancelled one exactly booked, every other status nothing; none keeps the current status |
| AppointmentsList.CompletedIsFinal | src/components/doctor/AppointmentsList.tsx:209-236 | completed and rescheduled appointments offer no transition |
| AppointmentsList.GetStatusVariant | src/components/doctor/AppointmentsList.tsx:91-99 | destructive iff cancelled; default iff booked or completed; secondary otherwise |
| AppointmentsList.AppointmentsPanel.constructor | src/components/doctor/AppointmentsList.tsx:16-20 | empty lists, status 'all', empty search |
| AppointmentsList.AppointmentsPanel.Refilter | src/components/doctor/AppointmentsList.tsx:52-69 | the staged filter stores the filtered list, which stays in fetch order |
| AppointmentsList.AppointmentsPanel.FetchAppointments | src/components/doctor/AppointmentsList.tsx:30-50 | on success the list is the data, or empty when there is none; on error it is kept; the shown list follows |
| AppointmentsList.AppointmentsPanel.SetStatusFilter | src/components/doctor/AppointmentsList.tsx:130 | a new status filter is stored and the shown list recomputed |
| AppointmentsList.AppointmentsPanel.SetSearchTerm | src/components/doctor/AppointmentsList.tsx:127 | a new search term is stored and the shown list recomputed |
| AppointmentsList.AppointmentsPanel.UpdateAppointmentStatus | src/components/doctor/AppointmentsList.tsx:71-89 | on success only that appointment's status changes and the shown list follows; on error nothing changes |
| Appointments.UpcomingAppointments | src/pages/Appointments.tsx:62-64 | upcoming holds exactly the appointments not past, not cancelled and not completed |
| Appointments.PastAppointments | src/pages/Appointments.tsx:66-68 | past holds exactly the appointments that are past, completed or cancelled |
| Appointments.TabsPartition | src/pages/Appointments.tsx:62-68 | every appointment is on exactly one tab, the tabs' sizes add up to the list's, and each tab keeps the order |
| Appointments.IsToday | src/pages/Appointments.tsx:167 | an instant is on its own day, and two instants on the same day are less than a day apart |
| Appointments.CanReschedule | src/pages/Appointments.tsx:70-73 | an appointment that may be rescheduled is not in the past |
| Appointments.CanRescheduleIff | src/pages/Appointments.tsx:70-73 | rescheduling is allowed iff the appointment is more than 86 400 000 ms away |
| Appointments.GetStatusColor | src/pages/Appointments.tsx:75-83 | confirmed and completed map to primary, cancelled to destructive, rescheduled to accent, anything else to muted |
| Appointments.CardActions | src/pages/Appointments.tsx:165-186 | only confirmed cards with actions get buttons; Join Call iff today; Reschedule and Cancel iff more than 24 h remain |
| Appointments.JoinExcludesReschedule | src/pages/Appointments.tsx:166-173 | no card offers both Join Call and Reschedule |
| Appointments.TabActions | src/pages/Appointments.tsx:231-256 | the past tab shows no buttons; on the upcoming tab Reschedule appears iff the appointment is confirmed and more than a day away |
| DoctorDashboard.Midnight | src/pages/DoctorDashboard.tsx:64 | a date's midnight falls on that date |
| DoctorDashboard.PatientIds | src/pages/DoctorDashboard.tsx:73 | the set holds exactly the patient ids that occur |
| DoctorDashboard.PatientIdsBound | src/pages/DoctorDashboard.tsx:73 | there are no more distinct patients than appointments |
| DoctorDashboard.ComputeStats | src/pages/DoctorDashboard.tsx:61-79 | without data every counter is 0; with data today's and the week's counts are at most the number of appointments |
| DoctorDashboard.TodayWithinWeek | src/pages/DoctorDashboard.tsx:62-70 | an appointment counted for today is also counted for the week |
| DoctorDashboard.StatsBounds | src/pages/DoctorDashboard.tsx:61-79 | without data all counters are 0; with data, today <= weekly <= count, patients <= count, and at least one patient when there are appointments |
| DoctorDashboard.DayPanel | src/pages/DoctorDashboard.tsx:207-210 | the panel lists exactly the appointments on the selected day |
| DoctorDashboard.EmptyMessageIff | src/pages/DoctorDashboard.tsx:224-230 | the empty message shows iff no appointment is on that day |
| DoctorDashboard.TodayCountIsTodayPanel | src/pages/DoctorDashboard.tsx:62-65 | today's counter equals the length of the panel for today |
| DoctorDashboard.Dashboard.constructor | src/pages/DoctorDashboard.tsx:17-25 | the counters start at zero, with no profile and loading on |
| DoctorDashboard.Dashboard.FetchDoctorData | src/pages/DoctorDashboard.tsx:33-86 | without a doctor record only loading stops and the counters keep their values; otherwise the list and the counters are set from the data |
| DoctorDashboard.Dashboard.SelectDay | src/pages/DoctorDashboard.tsx:193 | the calendar sets the day |
| Doctors.FilteredDoctors | src/pages/Doctors.tsx:101-109 | a doctor is kept iff the name or specialization contains the query ignoring case, the specialization matches, and the mode matches |
| Doctors.FilteredIsSubseq | src/pages/Doctors.tsx:101 | the result keeps the list's order |
| Doctors.DefaultsKeepAll | src/pages/Doctors.tsx:97-106 | the default inputs keep every doctor |
| Doctors.ClearFilters | src/pages/Doctors.tsx:270-274 | Clear Filters restores the default inputs |
| Doctors.NarrowingShrinks | src/pages/Doctors.tsx:101-108 | tightening any input yields a subsequence of the previous result |

## Left out

- Supabase I/O becomes parameters. Each write takes a `fails` flag; query results are passed in. Toasts, console output and the loading/saving spinners are left out.
- JavaScript `Date` and time zones are left out. Dates are day numbers and `isToday`/`toDateString` compare UTC days. Generation's mix of local `getDay`, UTC `toISOString` and local `toTimeString` is not modelled.
- Locale formatting is left out: `formatTime`, `formatDateDisplay`, `toLocaleDateString` and the capitalised status text.
- `toLowerCase` is modelled on ASCII letters only.
- AvailabilitySetup.RuleEditor.GenerateTimeSlots: requires a positive `slot_duration`. With zero or a negative value, the source's `while` loop never ends on a matching day. The form only offers 15, 30, 45 and 60.
- AvailabilitySetup.RuleEditor.AddRule: requires a positive `slot_duration`, for the same reason.
- AvailabilitySetup.RulePatch: an update is a set of optional fields, so a field is either set or absent. A JavaScript partial object can also hold a field explicitly set to `undefined`, which the spread copies over the rule; the model cannot express that. The only caller passes a boolean `is_active`.
- `fetchAvailabilityRules` is not modelled. The rule list starts empty and changes only through the modelled handlers.
- Nullable database flags (`is_booked`, `is_locked`, `is_active`) are modelled as plain booleans. A null `is_booked` would fail the query's `eq(false)` test.
- The `created_at`, `updated_at` and `notes` columns play no part.
- The `unlock_expired_slots` database function is not part of this model; only its signature exists.
- Lock release, lock confirmation, compare-and-set, appointment creation and real OTP delivery are not modelled, because the source has none of them.
- Concurrency between lockers is not modelled. Calls are sequential.
- CalendarSlotPicker.QueryAvailable: the source leaves the order of equal start times to the database. The model fixes one order, and its contract only promises sortedness.
- The patient picker's calendar `disabled` rule (dates before now) is not modelled. Neither is the booking calendar's 30-day window.
- `AppointmentsList.getStatusColor` is never used by the component, so it is not modelled.
- `BookingFlow`'s `lockTimer` never changes, because `setLockTimer` is never called. It is a constant 300.
- The OTP input's `maxLength` attribute is not modelled separately. The sanitiser already caps the code at six characters.
- Rendering, mock data, fees and the booking page's mock slot table are left out.
- Home, Header and DoctorProfile are not part of this model.
