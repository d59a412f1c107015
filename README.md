# Medication tracker: a verified model of the tracking core

This project models the tracking core of a React medication tracker in Dafny. The core
keeps a list of medications, each with a dosage, a stock quantity and a schedule of
times of day. It also keeps a ledger of check-ins (a dose taken or skipped). Around that
state sit the reminder scanner, the check-in dialog, the travel planner, the add and
edit forms, and the pages that derive views from the schedules.

Modules, one per source file of the core:

- `Common`: `Option`, times of day (`Time`), instants (`Instant` = day number and
  millisecond of the day), weekday names, floor division, and sequence filtering.
- `Sorting`: `Array.prototype.sort` with a key, as a stable insertion sort (`SortBy`),
  proved sorted and a permutation. It also has the first-minimum search.
- `Medications`: the stored entities (`Medication`, `Schedule`, `Record`), JavaScript
  truthiness of stored numbers, and the ways the pages read a schedule.
- `MedicationContext` (`src/context/MedicationContext.js`, mixed):
  - the reducer `Reduce` as a pure function over a `State` value;
  - the provider as `class Store`, whose methods dispatch reducer commands;
  - the matcher `MatchOccurrence`, with its loop `Store.CheckMedicationTaken`.
- `Notifications` (`src/services/NotificationService.js`, imperative):
  - `class ReminderService` holds the `activeReminders` map;
  - the toasts it raises go to a ghost log;
  - `CheckUpcomingMedications` is the nested scan loop, proved against the pure `Scan`.
- `CheckIn` (`src/components/MedicationCheckIn.js`): `class CheckInDialog`, whose
  buttons update-or-append in the ledger and then clear the reminder.
- `Travel` (`src/pages/TravelMode.js`, pure): the plan and the selection operations.
- `TimeText`: the "HH:MM" text the editors store. It is proved to be a bijection with
  `Time` values. Its string order is proved to be chronological order, so the model
  compares `Time` values where the code compares strings.
- `MedicationForm`: what the add and edit pages share — form validation, and insertion
  into and removal from the sorted list of times.
- `AddMedicationPage` and `EditMedicationPage` (`src/pages/AddMedication.js`,
  `src/pages/EditMedication.js`): each page's state as a class, with its handlers and
  the payload it submits.
- `ClientDashboard`, `WeeklySchedule`, `Dashboard`, `MedicationList`,
  `MedicationDetails`: the derived views of the pages of those names.

The clock, the uuid supply and `Number()` on form text are parameters (`now`, `freshId`,
`parse`). Instants live in one local time zone.

Where the application's description and its code differ, the model follows the code:

- UPDATE_CONSUMPTION with an unknown record id is silently a no-op.
- The due-now window of the scanner spans 89 minutes before now to 30 minutes after. It
  does not wrap at midnight, and it overlaps the upcoming window.
- The matcher reports the first matching record in history order, not the closest one.
- A check-in more than 30 minutes after a slot of the previous hour appends a record
  that does not match the slot, so the next scan reminds again (`LateCheckInStillFires`).
- The travel planner reads `schedule.length`, so a schedule object falls back to the
  free-text `frequency`. The trip range is not validated.
- The weekly schedule page puts every time on all seven days, whatever the weekdays.
- The overview page and the list page consider legacy arrays only: a schedule object
  has no `length`.
- The detail page counts a schedule object without times as one dose a day. An empty
  list of times divides by zero, giving `Infinity` (`DaysLeft.Endless`).
- The detail and edit pages never clear `notFound`. A medication deleted after it was
  shown stays in the page state.
- The edit page saves every schedule as `daily` on all seven days.
- Both forms start with unit "pill", which is not among the unit options. The edit
  page loads an empty unit as "pilula".

## Model

| member | source | states |
|---|---|---|
| Medications.ArrayLength | src/pages/TravelMode.js:84 | `schedule.length` exists exactly for a legacy array |
| Medications.LegacyReadsAsDaily | src/pages/EditMedication.js:67-74 | a legacy array of times reads exactly like a `daily` object with the same times |
| Medications.FindMedication | src/pages/MedicationDetails.js:52 | a found medication is in the list and has the id; nothing is found exactly when no element has the id |
| Medications.LookupPage | src/pages/MedicationDetails.js:50-59 | pending exactly while the list is empty; not found exactly when a non-empty list lacks the id; otherwise a list member with the id |
| MedicationContext.AddAppendsLast | src/context/MedicationContext.js:27-31 | ADD_MEDICATION puts the payload last, keeps every earlier medication, and keeps the ledger, loading flag and error |
| MedicationContext.DeleteCascades | src/context/MedicationContext.js:32-39 | DELETE_MEDICATION removes every medication with the id and every record of it, keeps all others in relative order, and clears loading |
| MedicationContext.DeleteUndoesAdd | src/context/MedicationContext.js:27-39 | adding a medication with a new id and deleting that id restores medications and ledger |
| MedicationContext.UpdateReplacesMatching | src/context/MedicationContext.js:40-46 | UPDATE_MEDICATION keeps length and id order, replaces exactly the medications with the payload's id, and keeps the ledger |
| MedicationContext.UpdateThenFind | src/context/MedicationContext.js:40-46 | after an update, a lookup of the payload's id finds the payload if the id was present; other lookups are unchanged |
| MedicationContext.RecordAppendsOne | src/context/MedicationContext.js:58-68 | RECORD_CONSUMPTION appends exactly the record with the fresh id and keeps every earlier record and the medications |
| MedicationContext.UpdateConsumptionOnlyFlag | src/context/MedicationContext.js:70-82 | UPDATE_CONSUMPTION changes only the `taken` flag, and only of records with the given id |
| MedicationContext.UpdateConsumptionUnknownId | src/context/MedicationContext.js:70-82 | an unknown record id leaves the whole state unchanged |
| MedicationContext.ReducePreservesDistinctIds | src/context/MedicationContext.js:16-86 | with fresh ids, every command keeps medication ids and record ids free of repeats |
| MedicationContext.NewMedication | src/context/MedicationContext.js:137-148 | the new medication has the fresh id and creation time, overriding the input's, and every other input field |
| MedicationContext.Stamped | src/context/MedicationContext.js:150-158 | the update sets `updatedAt` and keeps every other field |
| MedicationContext.MatchOccurrenceIsFirstMatch | src/context/MedicationContext.js:186-218 | with an id and a time, a match exists exactly when some record of the medication, that day, lies within 30 minutes (inclusive); it is the first such record in history order |
| MedicationContext.MatchNeedsIdAndTime | src/context/MedicationContext.js:188-190 | a missing medication id or scheduled time gives null |
| MedicationContext.MatchStableUnderAppend | src/context/MedicationContext.js:196-215 | appending records never changes an existing match |
| MedicationContext.MatchAfterSetTaken | src/context/MedicationContext.js:70-82 | rewriting the matched record's flag keeps it the match and reports the new flag |
| MedicationContext.SetTakenKeepsMatches | src/context/MedicationContext.js:70-75 | the flag rewrite keeps length and which records match any slot |
| MedicationContext.MatchAfterAppend | src/context/MedicationContext.js:196-215 | appending a matching record to an unmatched slot makes that record the match |
| MedicationContext.MatchScenarioQuarterPast | src/context/MedicationContext.js:202-214 | a 10:15 record matches the 10:00 slot; an 11:00 one does not |
| MedicationContext.MatchScenarioBoundary | src/context/MedicationContext.js:196-214 | 30 minutes is inside the window, 31 is outside, and another day never matches |
| MedicationContext.MatchScenarioTwoInWindow | src/context/MedicationContext.js:202-214 | of two records in the window, the earlier history entry wins, whatever the times |
| MedicationContext.FetchAction | src/context/MedicationContext.js:121-135 | an error exactly for unreadable storage; otherwise the stored list, or the empty list when absent |
| MedicationContext.Store.constructor | src/context/MedicationContext.js:5-10 | the initial state is the stored lists or empty, not loading, with no error |
| MedicationContext.Store.Dispatch | src/context/MedicationContext.js:91 | the new state is the reducer applied to the old state |
| MedicationContext.Store.AddMedication | src/context/MedicationContext.js:137-148 | dispatches ADD_MEDICATION, so the new medication is appended last |
| MedicationContext.Store.UpdateMedication | src/context/MedicationContext.js:150-158 | dispatches UPDATE_MEDICATION with the time-stamped payload |
| MedicationContext.Store.DeleteMedication | src/context/MedicationContext.js:160-162 | dispatches DELETE_MEDICATION |
| MedicationContext.Store.GetMedications | src/context/MedicationContext.js:121-135 | SET_LOADING then GET_MEDICATIONS or SET_ERROR; loading ends false; medications are kept on error |
| MedicationContext.Store.LoadOnMount | src/context/MedicationContext.js:94-113 | nothing when storage is empty; GET_MEDICATIONS when it parses; SET_ERROR when it does not |
| MedicationContext.Store.RecordConsumption | src/context/MedicationContext.js:165-170 | the ledger grows by exactly the new record; medications are unchanged |
| MedicationContext.Store.UpdateConsumption | src/context/MedicationContext.js:173-178 | the ledger's flags are rewritten for the record id; medications are unchanged |
| MedicationContext.Store.ConsumptionHistoryOf | src/context/MedicationContext.js:181-183 | exactly the medication's records, as a subsequence of the ledger |
| MedicationContext.Store.CheckMedicationTaken | src/context/MedicationContext.js:186-218 | the loop returns the first matching record's status, or null exactly when no record matches |
| Notifications.Remind | src/services/NotificationService.js:19-49 | a medication that has a reminder is left alone; otherwise exactly one entry and one reminder toast are added |
| Notifications.Acknowledge | src/services/NotificationService.js:52-91 | the medication's entry is dismissed and removed if present, other entries are untouched, and the confirmation is raised |
| Notifications.RemindIdempotent | src/services/NotificationService.js:23-25 | a second reminder for the same medication changes nothing |
| Notifications.StepsKeepKeying | src/services/NotificationService.js:23-31 | every stored handle stays under its own medication's id, so there is at most one per medication |
| Notifications.AcknowledgeAfterRemind | src/services/NotificationService.js:54-57 | after remind then acknowledge, the medication has no reminder and others are as before |
| Notifications.DueNowExact | src/services/NotificationService.js:159-162 | the third conjunct of the previous-hour case is always true |
| Notifications.DueNowOffsets | src/services/NotificationService.js:159-162 | a due time lies 89 minutes before to 30 minutes after now on the day's minute scale |
| Notifications.DueNowExtremes | src/services/NotificationService.js:159-162 | both extreme offsets occur; a time in the next hour is not due; no wrap at midnight |
| Notifications.UpcomingExact | src/services/NotificationService.js:175-178 | upcoming exactly when 1 to 15 minutes ahead on the same day's minute scale |
| Notifications.UpcomingNoMidnightWrap | src/services/NotificationService.js:175-178 | 00:05 is not upcoming at 23:55 |
| Notifications.UpcomingWithinHourIsDue | src/services/NotificationService.js:159-178 | a time upcoming within the current hour is also due now |
| Notifications.ScanTimes | src/services/NotificationService.js:120-152 | a missing schedule is skipped; a legacy array always scanned; an object only with non-empty times, and only when `daily` or `specific-days` naming today |
| Notifications.LegacyScansAsDaily | src/services/NotificationService.js:128-149 | a legacy array and a `daily` object with the same times are scanned alike |
| Notifications.ScanSlotStep | src/services/NotificationService.js:155-194 | one slot adds its medication's reminder exactly when due and unmatched, keeps existing reminders, and only appends notices |
| Notifications.ScanSlotsEffect | src/services/NotificationService.js:155-195 | one medication's times add its reminder exactly when some time fires |
| Notifications.ScanEffect | src/services/NotificationService.js:110-197 | a scan adds exactly the medications with a due, unmatched slot, keeps existing reminders, and only appends notices |
| Notifications.ScanReminds | src/services/NotificationService.js:164-172 | after a scan a medication has a reminder exactly when it had one or one of its slots is due and unmatched |
| Notifications.MatchedSlotDoesNotFire | src/services/NotificationService.js:164-172 | a slot with a matching ledger record never raises a reminder |
| Notifications.ReminderService.constructor | src/services/NotificationService.js:5 | the map starts empty |
| Notifications.ReminderService.ShowMedicationReminder | src/services/NotificationService.js:19-49 | the state follows `Remind` |
| Notifications.ReminderService.ShowMedicationTaken | src/services/NotificationService.js:52-70 | the state follows `Acknowledge`; the medication has no reminder after |
| Notifications.ReminderService.ShowMedicationSkipped | src/services/NotificationService.js:73-91 | the state follows `Acknowledge`; the medication has no reminder after |
| Notifications.ReminderService.ClearAllReminders | src/services/NotificationService.js:200-205 | every stored reminder is dismissed and the map is empty |
| Notifications.ReminderService.CheckUpcomingMedications | src/services/NotificationService.js:110-197 | the nested loops compute `Scan`, whose effect `ScanEffect` states |
| CheckIn.StatusOf | src/components/MedicationCheckIn.js:32-34 | 'taken' or 'skipped' from the match's flag, null without a match |
| CheckIn.CheckInUpdatesMatch | src/components/MedicationCheckIn.js:37-38 | with a match the matched record's flag is rewritten, nothing is appended, and the slot reports the new flag |
| CheckIn.CheckInAppendsWithoutMatch | src/components/MedicationCheckIn.js:39-41 | without a match exactly one record of the medication, stamped now, with the button's flag, is appended |
| CheckIn.CheckInAcknowledgesSlot | src/components/MedicationCheckIn.js:36-56 | a check-in within 30 minutes of the slot leaves the slot matched with the button's flag |
| CheckIn.LateCheckInStillFires | src/components/MedicationCheckIn.js:39-41 | a check-in at 09:01 for 08:30 appends a record that leaves the slot due and unmatched |
| CheckIn.RemindThenAcknowledge | src/components/MedicationCheckIn.js:36-45 | a missed dose is reminded, the check-in clears the reminder and records the dose, and a scan later that day given the updated ledger does not remind again |
| CheckIn.CheckInDialog.constructor | src/components/MedicationCheckIn.js:32-34 | the initial status is that of the ledger's match |
| CheckIn.CheckInDialog.HandleTaken | src/components/MedicationCheckIn.js:36-45 | update-or-append with taken, then the reminder is cleared and the status is 'taken' |
| CheckIn.CheckInDialog.HandleSkipped | src/components/MedicationCheckIn.js:47-56 | update-or-append with skipped, then the reminder is cleared and the status is 'skipped' |
| CheckIn.CheckInDialog.AcknowledgeInLedger | src/components/MedicationCheckIn.js:37-41 | the ledger receives the update-or-append command |
| Travel.FrequencyDoses | src/pages/TravelMode.js:86-94 | the four known frequencies give 1 to 4 doses; anything else gives 0 |
| Travel.PillsPerDose | src/pages/TravelMode.js:97 | the dosage when truthy, else 1 |
| Travel.PlanFor | src/pages/TravelMode.js:96-113 | total units = doses per day × days × units per dose; enough stock exactly when the quantity (null as 0) covers them |
| Travel.PlanEntries | src/pages/TravelMode.js:78-114 | at most one entry per selected id, each the plan of the medication with its id |
| Travel.PlanFollowsSelection | src/pages/TravelMode.js:78-114 | the plan's ids are the selected ids that name a medication, in selection order |
| Travel.FourDayTripScenario | src/pages/TravelMode.js:74-118 | two times a day, one unit a dose, a trip of 4 days plus 2 buffer days needs 12 and 10 do not suffice |
| Travel.TaggedScheduleCountsFrequency | src/pages/TravelMode.js:84-94 | a schedule object falls back to the frequency; with none it needs nothing, which a numeric or null quantity covers |
| Travel.ReversedRangeAlwaysSuffices | src/pages/TravelMode.js:75-76 | an end before the start gives no positive need, so every entry with a numeric or null quantity reports enough stock |
| Travel.ToggleFlips | src/pages/TravelMode.js:52-59 | the toggled id flips in or out; no other id changes |
| Travel.ToggleTwice | src/pages/TravelMode.js:52-59 | toggling an unselected id twice restores the selection; a selected one comes back last |
| Travel.ToggleNoDuplicates | src/pages/TravelMode.js:52-59 | toggling never repeats an id |
| Travel.SelectAll | src/pages/TravelMode.js:64-71 | clears when the lengths are equal, otherwise selects every id in list order |
| Travel.SelectAllComparesLengths | src/pages/TravelMode.js:65 | a stale one-id selection is cleared; a partial one becomes all ids |
| Travel.SelectAllTwice | src/pages/TravelMode.js:64-71 | from a partial selection two presses select all, then nothing |
| TimeText.Format | src/pages/AddMedication.js:63-65 | five characters: two digits, ':' and two digits |
| TimeText.ParseFormat | src/pages/Schedule.js:100 | reading back a formatted time gives the time |
| TimeText.FormatParse | src/pages/Schedule.js:100 | every text that reads as a time is that time's formatted text |
| TimeText.FormatInjective | src/pages/AddMedication.js:67 | equal texts are equal times, so text membership is time membership |
| TimeText.FormatOrder | src/pages/Schedule.js:115-119 | string order on formatted times is minute-of-day order |
| MedicationForm.PassesIff | src/pages/AddMedication.js:48-58 | the form passes exactly when the name is not blank, dosage and unit are present, and the quantity is empty or a number |
| MedicationForm.BlankNames | src/pages/AddMedication.js:51 | any name made only of spaces, the empty one included, is refused; any name holding a character other than white space passes the name rule |
| MedicationForm.ValidateForm | src/pages/AddMedication.js:48-58 | the collected errors are exactly the broken rules |
| MedicationForm.AddScheduleTime | src/pages/AddMedication.js:60-72 | no picked time or a listed one keeps the list; otherwise the list gains that time and is sorted |
| MedicationForm.AddKeepsChronological | src/pages/AddMedication.js:67-69 | adding keeps the list sorted and free of repeats, and the time is listed after |
| MedicationForm.RemoveDeletesOnly | src/pages/AddMedication.js:74-76 | removal deletes exactly that time and keeps the others in order |
| MedicationForm.RemoveKeepsChronological | src/pages/AddMedication.js:74-76 | removal keeps the list sorted and free of repeats |
| MedicationForm.StoredQuantity | src/pages/AddMedication.js:88 | a blank quantity is stored as null, else as its number |
| MedicationForm.StoredCategory | src/pages/AddMedication.js:89 | a blank category is stored as null, else as itself |
| AddMedicationPage.SubmittedReadsBack | src/pages/AddMedication.js:83-98 | the stored medication has the fresh id, the typed fields and the listed times; it is listed and scanned on every weekday |
| AddMedicationPage.AddPage.constructor | src/pages/AddMedication.js:26-36 | empty form with unit "pill", no picked time, no errors |
| AddMedicationPage.AddPage.PickTime | src/pages/AddMedication.js:244 | only the picked time changes |
| AddMedicationPage.AddPage.HandleAddSchedule | src/pages/AddMedication.js:60-72 | the list follows `AddScheduleTime` and stays sorted and repeat-free; the picker is cleared |
| AddMedicationPage.AddPage.HandleRemoveSchedule | src/pages/AddMedication.js:74-76 | the list follows `RemoveScheduleTime` and stays sorted; the time is gone |
| AddMedicationPage.AddPage.HandleSubmit | src/pages/AddMedication.js:78-100 | errors are shown; a failing form leaves the store alone; a passing one appends the payload with the fresh id |
| EditMedicationPage.LoadedFormValid | src/pages/EditMedication.js:81-91 | a loaded form passes exactly when the stored name is not blank and the dosage is truthy |
| EditMedicationPage.LoadThenSave | src/pages/EditMedication.js:112-134 | saving a loaded form keeps id, frequency, stamps and typed fields; normalises quantity, unit and category; and writes a `daily` schedule with the same times |
| EditMedicationPage.LoadSaveRoundTrip | src/pages/EditMedication.js:116-130 | a medication in the pages' own form is saved back unchanged |
| EditMedicationPage.SpecificDaysBecomeDaily | src/pages/EditMedication.js:125-129 | a Mondays-only schedule is saved as every day |
| EditMedicationPage.EditPage.constructor | src/pages/EditMedication.js:27-40 | no medication, empty form with unit "pill", not flagged |
| EditMedicationPage.EditPage.Load | src/pages/EditMedication.js:52-79 | nothing while the list is empty; a found medication fills the form; an absent id sets `notFound` |
| EditMedicationPage.EditPage.PickTime | src/pages/EditMedication.js:303 | only the picked time changes |
| EditMedicationPage.EditPage.HandleAddSchedule | src/pages/EditMedication.js:93-105 | the list follows `AddScheduleTime` and a sorted list stays sorted |
| EditMedicationPage.EditPage.HandleRemoveSchedule | src/pages/EditMedication.js:107-109 | the list follows `RemoveScheduleTime`; the time is gone |
| EditMedicationPage.EditPage.HandleSubmit | src/pages/EditMedication.js:111-134 | a failing form leaves the store alone; a passing one is written over the loaded medication and dispatched |
| ClientDashboard.TodayRowsContents | src/pages/ClientDashboard.js:52-102 | today's rows are sorted by minute of day and are exactly one row per time of each medication listed today |
| ClientDashboard.ListedTimesAreScannedTimes | src/pages/ClientDashboard.js:52-68 | the page lists today exactly the times the reminder scanner checks today |
| ClientDashboard.LowStockRowsContents | src/pages/ClientDashboard.js:107-112 | exactly the medications with 1 to 4 units, with their quantity |
| ClientDashboard.ClientDashboardView.constructor | src/pages/ClientDashboard.js:39-40 | both lists start empty |
| ClientDashboard.ClientDashboardView.Refresh | src/pages/ClientDashboard.js:43-115 | nothing changes for an empty list; otherwise today's rows and the low-stock rows |
| WeeklySchedule.PageTimes | src/pages/Schedule.js:73-86 | the times read are those of the schedule; a skipped medication has none |
| WeeklySchedule.BuildSchedule | src/pages/Schedule.js:63-125 | seven day lists, each all rows sorted by time, and today's rows sorted by instant |
| WeeklySchedule.PushMedication | src/pages/Schedule.js:72-112 | each of a medication's times is pushed onto all seven lists and today's |
| WeeklySchedule.SortEachDay | src/pages/Schedule.js:115-119 | every day list is replaced by its sorted form |
| WeeklySchedule.PushEverywhere | src/pages/Schedule.js:91-97 | the row is appended to each of the seven lists |
| WeeklySchedule.DayListContents | src/pages/Schedule.js:89-119 | a day list has one row per time of every medication, in chronological order |
| WeeklySchedule.TodayListContents | src/pages/Schedule.js:99-122 | today's list has one row per time, today's instant, ordered, and past exactly when before now |
| WeeklySchedule.SpecificDaysIgnored | src/pages/Schedule.js:89-97 | a Mondays-only medication appears on every day |
| Dashboard.NextOccurrenceAtTime | src/pages/Dashboard.js:68-76 | the next occurrence falls at the listed hour and minute |
| Dashboard.NextOccurrenceWithinDay | src/pages/Dashboard.js:50-61 | the next occurrence is not before now and less than 24 hours after |
| Dashboard.HasUpcomingDoseIff | src/pages/Dashboard.js:45-62 | the filter keeps exactly the non-empty legacy arrays |
| Dashboard.NextDoseIsFirstEarliest | src/pages/Dashboard.js:68-82 | the next dose is a time with the earliest occurrence, the first listed on ties |
| Dashboard.NextDose | src/pages/Dashboard.js:68-82 | the loop's choice is that next dose, with its occurrence |
| Dashboard.UpcomingOfDue | src/pages/Dashboard.js:63-89 | a row shows one of the medication's times, due within 24 hours |
| Dashboard.UpcomingRowSound | src/pages/Dashboard.js:45-90 | the list is sorted by next dose, and each row is that of a medication that passes the filter |
| Dashboard.UpcomingRowComplete | src/pages/Dashboard.js:45-90 | every medication that passes the filter has its row |
| Dashboard.LowStockDays | src/pages/Dashboard.js:276-288 | a listed medication shows fewer than 7 days, in error severity exactly below 3 days of doses |
| Dashboard.DashboardView.constructor | src/pages/Dashboard.js:37-38 | both lists start empty |
| Dashboard.DashboardView.Refresh | src/pages/Dashboard.js:40-105 | the sorted upcoming rows and the low-stock medications |
| MedicationList.SearchContents | src/pages/MedicationList.js:58-67 | the search keeps exactly the matching medications, in list order |
| MedicationList.SearchEmptyKeepsAll | src/pages/MedicationList.js:58-67 | the empty term keeps every medication |
| MedicationList.SearchIgnoresTermCase | src/pages/MedicationList.js:62-63 | the term's case does not matter |
| MedicationList.GetMedicationStatus | src/pages/MedicationList.js:114-153 | taken exactly when some time is matched by a taken record, skipped likewise; both false without medication, schedule or times |
| MedicationList.BothBadges | src/pages/MedicationList.js:144-152 | both flags can hold at once |
| MedicationList.DaysRemaining | src/pages/MedicationList.js:156-163 | null exactly when quantity, dosage or a non-empty legacy array is missing; else the floor of stock over daily use |
| MedicationList.IsLowStockAgreesWithDashboard | src/pages/MedicationList.js:254-255 | the card's warning marks exactly the overview's low-stock medications |
| MedicationDetails.LoadEffect | src/pages/MedicationDetails.js:50-59 | nothing while the list is empty; a found medication is shown; an absent id sets `notFound` |
| MedicationDetails.FirstLoad | src/pages/MedicationDetails.js:50-59 | on a fresh page, `notFound` exactly when a non-empty list lacks the id, else the medication with the id |
| MedicationDetails.NotFoundSticks | src/pages/MedicationDetails.js:50-59 | `notFound` is never cleared |
| MedicationDetails.DeletedKeepsStaleMedication | src/pages/MedicationDetails.js:50-59 | a deleted medication stays shown beside `notFound` |
| MedicationDetails.DisplayedTimes | src/pages/MedicationDetails.js:258-269 | the times list reads the schedule as the other pages do |
| MedicationDetails.DailyDosesCountsDisplayedTimes | src/pages/MedicationDetails.js:81-91 | the dose count is the count of listed times, except 1 with no schedule or no times array |
| MedicationDetails.DaysRemaining | src/pages/MedicationDetails.js:76-94 | null exactly when quantity or dosage is falsy; Infinity exactly for zero doses; else the floor of stock over daily use |
| MedicationDetails.LowStockThresholds | src/pages/MedicationDetails.js:122-159 | the warning shows exactly below 7 days of doses, in error colour exactly below 3 |
| MedicationDetails.AgreesWithListPage | src/pages/MedicationDetails.js:76-94 | for a non-empty legacy array both pages compute the same days; for a schedule object the list page shows none |

## Left out

- Rendering, theming, routing, authentication and the mock dashboards: they hold no
  tracking logic.
- Persistent storage: the writes that follow state changes are not modelled. The reads
  are inputs (`Stored`, the `Store` constructor's parameters).
- Toasts: their content and styling are not modelled. Each toast raised or dismissed is
  an entry of the ghost log `ReminderService.log`.
- The periodic timer that calls the scan (`src/components/NotificationChecker.js`) is
  not part of this model. One scan is `CheckUpcomingMedications`, and its ledger is a
  parameter. In the app the timer's scans use the matcher, and so the ledger, captured
  when the medication list last changed: a check-in keeps the same list, so the next
  timed scan still sees the old ledger, and the reminder that the check-in cleared is
  raised again. Every change to the medication list reruns the effect, whose cleanup
  runs `clearAllReminders`. Neither behaviour is modelled.
- Time zones: the matcher compares the record's UTC date with the local time of the
  slot. The model has one zone, so the day and the time of day are read alike.
- Array.prototype.sort in place: the model sorts by value with `SortBy`, a stable sort,
  and the page effects assign its result.
- Fractional dosages and quantities: the model uses whole numbers. Negative numbers are
  not modelled either.
- `Number()` on form text is the parameter `parse`.
- `toLowerCase` and `trim`: only ASCII letters are lowered, and only ASCII white space
  and the no-break space are trimmed.
- Page details that carry no state logic: the delete dialog and navigation, the
  text-field setters, and the low-stock toast (`showLowStockWarning`).
- MedicationContext.Store.RecordConsumption: the record's id is a parameter, not drawn
  from a uuid generator. Its uniqueness is the precondition of
  `ReducePreservesDistinctIds`.
- MedicationContext.Store.LoadOnMount: in the app, the initial state parses the stored
  lists when the module loads, and unreadable storage throws there, before the mount
  effect runs. So the SET_ERROR branch (`src/context/MedicationContext.js:106-110`) is
  reached only when storage changes between module load and mount. The model leaves
  out that module-load failure: the `Store` constructor takes already parsed lists.
- Travel.TotalDays: the day difference is an input rather than computed from two dates.
- Travel.StockOf: a stored `quantity` is a number or JSON `null`, which compares as 0. A
  missing `quantity` key and a NaN quantity are not modelled; for those
  `quantity >= totalPills` is false even when nothing is needed. The editors always
  write the key and refuse a quantity that is not a number.
