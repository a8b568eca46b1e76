# Aliyumed medication alarms, modelled in Dafny

Aliyumed is a browser application that reminds its users to take their medication.
A signed-in user keeps a list of medication records, each with a name, a dosage and
a daily time "HH:MM". Every few seconds a periodic scan compares the records with the
clock and rings an alarm for a record whose time has come. The alarm beeps,
raises a notification and offers "Mark as Taken", "Snooze" and "Dismiss". A
service worker routes clicks on such notifications back to the open windows.

This project models that core and proves properties of it:

- `alarm_context.dfy` (module `AlarmContext`) covers the alarm provider.
  - The periodic scan's pass over the list: not taken today, no live snooze, a dedup key
    `id-date-HH:MM` not yet recorded, and an exact minute match.
  - The single ringing alarm with its bounded 30-beep melody.
  - Stop, snooze, the midnight reset and the test alarm.
  - It is a class whose fields are the provider's state and refs. Timers are
    nullable handle fields, and each timer firing is a method.
- `alarm_modal.dfy` (`AlarmModal`) covers the modal's render guard and the calls
  each button makes.
- `medication_context.dfy` (`MedicationContext`) covers the record store.
  - Add, update and delete on the list; mark and unmark in the taken-today map;
    lookup by id.
  - `getNextReminder` over the filter, map, filter and stable-sort chain.
- `add_medication.dfy` (`AddMedication`) covers the form.
  - The 24-hour / 12-hour conversions and both round trips.
  - Blank-field validation, and the record that submitting hands to the store.
- `dashboard.dfy` (`Dashboard`) covers the display helpers: 12-hour formatting, the
  take toggle, the copy sorted by time, the taken count and the adherence percentage.
- `service_worker.dfy` (`ServiceWorker`) covers the worker. The window clients are a
  sequence and the worker's actions an effect list.
  - Notification-click routing.
  - Push defaults.
  - The notifications that `SCHEDULE_ALARM` and `SHOW_NOTIFICATION` build.
- `use_alarm.dfy` (`UseAlarm`) covers the standalone alarm hook. It is an older,
  unguarded variant that the application shell does not mount. Every trigger starts
  its own beep loop and timeout, and the old ones keep running; the live timers are
  a map and a set of handles.
- `auth_context.dfy` (`AuthContext`) covers the demo login, login against the stored
  users, signup with duplicate-email rejection, and logout.
- `signup.dfy` (`SignupPage`) covers the sign-up page's password checks, in their order.
- Shared by all: `options.dfy`, `text.dfy`, `clock.dfy`, `sequences.dfy` and `sorting.dfy`.
  - Text stands in for the JavaScript built-ins used: decimal rendering,
    `padStart`, `Number`, `parseInt`, `trim`, `split` and `includes`.
  - Array stands in for `find`, `findIndex`, `filter` and a stable sort.
  - The clock is one natural number: the local-clock millisecond count. Day,
    minute of day and "HH:MM" derive from it.

Time, ids (`Date.now()` in the application), the user's answers to prompts and
what the browser offers are all parameters. Two behaviours of the code worth noting:

- The midnight reset runs once, after the first midnight following mount. It is
  not re-armed, so later midnights clear nothing (`AlarmProvider.MidnightFires`
  sets `midnightAt` to None).
- Snooze entries are never pruned. They stay in the map until the midnight reset.
- A snoozed medication never rings again from the periodic scan. Snoozing deletes the
  minute's key so that the medication can trigger again, but the scan rings a record
  only in the exact minute of its stored time (src/context/AlarmContext.jsx:51). Once
  the snooze lapses that minute has passed, so the record stays silent until the same
  time the next day (`AlarmContext.NotDueInLaterMinute` with `AlarmContext.SnoozeUntil`).

## Model

| member | source | states |
|---|---|---|
| AlarmContext.CheckKeyInjective | src/context/AlarmContext.jsx:45 | Two dedup keys are equal exactly when they have the same medication id, the same day and the same minute of the day. |
| AlarmContext.Scan | src/context/AlarmContext.jsx:31-56 | A pass rings only for due medications of the list, at most once per id. It adds exactly the keys of those it rang for, and every medication that was due has its key recorded afterwards. |
| AlarmContext.ScanFiresExactlyDue | src/context/AlarmContext.jsx:37-54 | With distinct ids in the list, the pass rings for exactly the medications that are due: not taken, no live snooze, key not recorded, time equal to the current "HH:MM". They ring in list order. |
| AlarmContext.SameMinuteRingsOnce | src/context/AlarmContext.jsx:45-53 | After one pass has recorded its keys, any later pass within the same minute of the same day rings for none of the ids the first one rang for. |
| AlarmContext.NotDueInLaterMinute | src/context/AlarmContext.jsx:51 | A medication that rang at one moment is never due at a moment a minute or more later on the same day, whatever the snooze map holds. So a lapsed snooze does not bring it back. |
| AlarmContext.SnoozeUntil | src/context/AlarmContext.jsx:202 | The deadline is now plus the minutes times 60000 ms. A snooze of at least one minute ends in a different minute or on a different day. |
| AlarmContext.SnoozedChecked | src/context/AlarmContext.jsx:209-213 | Snoozing removes only the key for the minute of the snooze. The key of a ring in any other minute stays recorded. |
| AlarmContext.Snoozed | src/context/AlarmContext.jsx:203-206 | The snooze map gains or replaces the entry for the id, and every other entry is left as it was. |
| AlarmContext.NextMidnight | src/context/AlarmContext.jsx:69-74 | The reset fires at the first midnight after now, within one day, on the next day. |
| AlarmContext.Beeps | src/context/AlarmContext.jsx:134-173 | A run of the beep loop plays at most 30 beeps in all. Beep k has pitch [523, 659, 784, 659][k % 4]. The provider's invariant holds the pitches played so far to `Beeps(0, beepCount)`. |
| AlarmContext.BeepsExtend | src/context/AlarmContext.jsx:134-166 | One run below the maximum appends the next pitch of the melody to what the loop has played. |
| AlarmContext.AlarmNoticeTagged | src/context/AlarmContext.jsx:91-116 | A notification is asked for exactly when a service worker controls the page or permission is granted. Either way it is tagged "med-id", and the one the worker shows is titled for the medication. |
| AlarmContext.TestMedication | src/context/AlarmContext.jsx:236-243 | The test record has id "test", name "Test Alarm", dosage "Testing alarm sound", and a well-formed time equal to the current minute of the day. |
| AlarmContext.AlarmProvider.constructor | src/context/AlarmContext.jsx:10-18 | On mount nothing rings, no key or snooze is recorded, and the reset is set for the next midnight. |
| AlarmContext.AlarmProvider.TriggerAlarm | src/context/AlarmContext.jsx:84-120 | While ringing it changes nothing. Otherwise the medication becomes current and rings, and the notification is asked for. With audio, the first melody note plays and both timers are set. |
| AlarmContext.AlarmProvider.IntervalFires | src/context/AlarmContext.jsx:137-170 | Below 30 beeps, the next melody note plays and is counted. At 30, the interval is cleared and nulled. |
| AlarmContext.AlarmProvider.StopAlarm | src/context/AlarmContext.jsx:184-197 | Afterwards nothing rings, there is no current alarm and both handles are null. Keys, snoozes and the beep count are unchanged, so a second call finds the same state. |
| AlarmContext.AlarmProvider.AlarmTimeoutFires | src/context/AlarmContext.jsx:175-178 | The auto-stop stops the alarm. |
| AlarmContext.AlarmProvider.SnoozeAlarm | src/context/AlarmContext.jsx:199-216 | Without a current alarm nothing changes. Otherwise the snooze is recorded for it, the key of the present minute is removed, and the alarm stops. |
| AlarmContext.AlarmProvider.MidnightFires | src/context/AlarmContext.jsx:76-79 | The reset empties the key set and the snooze map, once. A ringing alarm, its beep count and both of its timers are left as they are. |
| AlarmContext.AlarmProvider.TestAlarm | src/context/AlarmContext.jsx:236-243 | Triggers the test record, under the same guard as any medication: when no alarm rings, the test record rings, its notification is asked for, and with working audio the first beep plays and both timers are set (without audio, no beep and no timer). The snoozes, keys and midnight reset are untouched. |
| AlarmContext.AlarmProvider.CheckMedication | src/context/AlarmContext.jsx:37-54 | A due medication has its key recorded and the alarm triggered for it. If an alarm already rings, the trigger does nothing and the sound is untouched. Otherwise the medication rings, its notification is asked for, and its sound starts exactly as `TriggerAlarm` starts it. Any other medication changes nothing. |
| AlarmContext.AlarmProvider.Tick | src/context/AlarmContext.jsx:28-56 | Signed out or with an empty list, nothing happens. Otherwise the key set becomes that of the pass (`Scan`). An alarm that already rang keeps ringing, and its sound stays untouched, with no notice. Else the first medication fired rings, its sound starts, and its notification is the only one asked for. If none fired, nothing rings and the sound is untouched. |
| AlarmModal.Render | src/components/AlarmModal.jsx:10 | Something is shown exactly when an alarm rings and there is a current alarm. Then its name, dosage and time are shown. |
| AlarmModal.Press | src/components/AlarmModal.jsx:12-25 | Only "Mark as Taken" on a non-test record calls markAsTaken, with its id and before stopping. A snooze button calls snoozeAlarm with its own minutes. Dismiss only stops. |
| AlarmModal.PressOutcome | src/components/AlarmModal.jsx:12-25 | After any button the alarm is silent. The taken map changes only for "Mark as Taken" on a non-test record, and then exactly as markAsTaken changes it. |
| MedicationContext.Appended | src/context/MedicationContext.jsx:61-67 | Exactly one record is appended, carrying the new id. The existing records keep their order and contents. |
| MedicationContext.Merge | src/context/MedicationContext.jsx:71 | Each field the update sets, the id included, is taken from it, and each other field is kept. |
| MedicationContext.Updated | src/context/MedicationContext.jsx:69-73 | The length is unchanged. Records with the id are merged and all others are left as they were. |
| MedicationContext.Deleted | src/context/MedicationContext.jsx:75-77 | No record with the id remains. |
| MedicationContext.DeletedKeepsOthers | src/context/MedicationContext.jsx:75-77 | Every record with another id is kept as often as it occurred, in its original relative order, and nothing else is kept. |
| MedicationContext.MarkedTaken | src/context/MedicationContext.jsx:79-81 | The id is marked taken and its key added. Every other key keeps its value. |
| MedicationContext.MarkedNotTaken | src/context/MedicationContext.jsx:83-89 | Only the id's key is removed. |
| MedicationContext.MarkThenUnmarkRestores | src/context/MedicationContext.jsx:79-89 | Marking an absent id and then unmarking it restores the map. |
| MedicationContext.GetMedication | src/context/MedicationContext.jsx:91-93 | Returns the first record with the id, or nothing exactly when no record has it. |
| MedicationContext.GetAppended | src/context/MedicationContext.jsx:61-93 | A record added under an unused id is what looking up that id finds. |
| MedicationContext.GetUpdated | src/context/MedicationContext.jsx:69-93 | After an update that keeps ids, looking up the id finds the first record with it, merged. |
| MedicationContext.TimeInMinutesOfClockTime | src/context/MedicationContext.jsx:102-103 | A well-formed "HH:MM" reads as its minutes after midnight. |
| MedicationContext.NextReminderNoneIff | src/context/MedicationContext.jsx:95-110 | The next reminder is null exactly when no record is untaken with a time at or after the current minute. |
| MedicationContext.NextReminderIsEarliestUpcoming | src/context/MedicationContext.jsx:95-110 | Otherwise it is an untaken record at or after now with the fewest minutes, and the first such in the list (the sort is stable), with its minutes. |
| MedicationContext.MedicationProvider.AddMedication | src/context/MedicationContext.jsx:61-67 | The held list becomes `Appended` of the old list; the taken map is unchanged. |
| MedicationContext.MedicationProvider.UpdateMedication | src/context/MedicationContext.jsx:69-73 | The held list becomes `Updated` of the old list; the taken map is unchanged. |
| MedicationContext.MedicationProvider.DeleteMedication | src/context/MedicationContext.jsx:75-77 | The held list becomes `Deleted` of the old list; the taken map is unchanged. |
| MedicationContext.MedicationProvider.MarkAsTaken | src/context/MedicationContext.jsx:79-81 | The taken map becomes `MarkedTaken` of the old map; the list is unchanged. |
| MedicationContext.MedicationProvider.MarkAsNotTaken | src/context/MedicationContext.jsx:83-89 | The taken map becomes `MarkedNotTaken` of the old map; the list is unchanged. |
| AddMedication.Hour24 | src/pages/AddMedication.jsx:31-34 | For every picker hour 1-12 the result is a 0-23 hour that is afternoon exactly when PM is chosen, and reads back as the picked hour on a 12-hour clock. A picker that parseInt cannot read stays NaN. |
| AddMedication.Hour12 | src/pages/AddMedication.jsx:26 | The 12-hour clock hour is always between 1 and 12. |
| AddMedication.Parse24hTimeOfClockTime | src/pages/AddMedication.jsx:23-28 | On a well-formed time the period is PM exactly from hour 12 on. The hour is h % 12, with 12 for 0; the minute is the stored two digits. |
| AddMedication.To24hThenParse | src/pages/AddMedication.jsx:23-36 | Every picker choice (hour 1 to 12, a two-digit minute below 60, AM or PM) comes back unchanged from conversion to 24-hour form and back. |
| AddMedication.ParseThenTo24h | src/pages/AddMedication.jsx:23-36 | Every well-formed stored "HH:MM" (00-23, 00-59) comes back unchanged from conversion to the pickers and back. |
| AddMedication.Validate | src/pages/AddMedication.jsx:54-60 | There is a name error exactly when the name is blank after trimming, and a dosage error exactly when the dosage is, each with its message. |
| AddMedication.Submit | src/pages/AddMedication.jsx:62-79 | Nothing is saved exactly when a field is blank. Otherwise the trimmed name and dosage are saved with the converted time: as an update of the route's id when editing, else as a new record. |
| AddMedication.LoadForEdit | src/pages/AddMedication.jsx:38-52 | An unknown id goes back to the dashboard. A found record loads its own name and dosage into the form. |
| AddMedication.EditUnchangedKeepsRecord | src/pages/AddMedication.jsx:38-79 | Open a record whose time is well formed and whose name and dosage are non-blank and already trimmed, then save it unchanged. Its own fields are submitted and the stored record stays as it was. |
| Dashboard.FormatTimeOfClockTime | src/pages/Dashboard.jsx:44-50 | On a well-formed time the display is the 12-hour clock hour, ':', the stored minute digits and AM or PM by hour 12. |
| Dashboard.FormatTimeAgreesWithPickers | src/pages/Dashboard.jsx:44-50 | The dashboard shows a stored time exactly as the form's hour, minute and period pickers read it. |
| Dashboard.Toggled | src/pages/Dashboard.jsx:61-67 | The toggle flips whether the id counts as taken, and every other key is left as it was. |
| Dashboard.ToggleTwiceRestores | src/pages/Dashboard.jsx:61-67 | Pressing twice restores the map, unless the id was stored as explicitly not taken. |
| Dashboard.LexLeClockTimes | src/pages/Dashboard.jsx:79-81 | On well-formed times the text order of the sort is the order of the times of day. |
| Dashboard.ByTimeIsTotalPreorder | src/pages/Dashboard.jsx:80 | The time comparison is total and transitive. |
| Dashboard.SortedMedicationsOrdered | src/pages/Dashboard.jsx:79-81 | The sorted copy is a permutation of the list, ordered by time text. With well-formed times it is in order of the times of day. |
| Dashboard.TakenCountAfterToggle | src/pages/Dashboard.jsx:61-83 | The toggle moves the taken count down by one when unmarking, or up by one when marking an id the map did not hold. |
| Dashboard.AdherencePercent | src/pages/Dashboard.jsx:84-85 | 0 without medications. Otherwise 100 * taken / total, rounded half up to a whole number. |
| Dashboard.AdherenceBounds | src/pages/Dashboard.jsx:83-85 | With no more taken than there are medications the percentage is at most 100, and it is 100 when all are taken. |
| ServiceWorker.ClickEffects | public/sw.js:57-109 | Every click closes the notification first. "take" posts MARK_TAKEN only to the first focusable dashboard window and focuses it, else opens the taken URL. "snooze" posts SNOOZE with 5 minutes to every window. Anything else posts nothing: it focuses the first focusable window, else opens /dashboard. |
| ServiceWorker.HandleClick | public/sw.js:57-109 | As written: the handler produces exactly `ClickEffects` for the `medicationId` field of the notification's data, which a page-raised notification lacks. |
| ServiceWorker.HandleClickCorrected | public/sw.js:57-109 | Corrected: the handler produces `ClickEffects` for the medication's own id. For a page-raised notification, "take" with no window open closes it and opens the dashboard for that id. |
| ServiceWorker.RouteClick | public/sw.js:57-109 | The handler's loops over the open windows produce exactly `ClickEffects` for a given id. |
| ServiceWorker.PushNotification | public/sw.js:18-54 | Without a payload the defaults apply. A payload that is not JSON becomes the body. A JSON payload supplies title, body and data, and the tag, icon and badge fall back to "medication-reminder", "/pill.svg" and "/pill.svg" where it leaves them out. Every push offers take, snooze and dismiss. |
| ServiceWorker.MessageNotification | public/sw.js:112-159 | SCHEDULE_ALARM builds tag "med-id" and data {medicationId, medicationName, dosage}. SHOW_NOTIFICATION builds tag "med-id" with the medication as data, or "aliyumed-notification" with {}. Both offer take, snooze and dismiss, and any other message builds nothing. |
| ServiceWorker.PageNotificationClickLosesId | public/sw.js:64-80 | As written: "take" on a page-raised notification opens the dashboard with id "undefined", and posts MARK_TAKEN without an id. |
| ServiceWorker.ClickRecoversMedicationId | public/sw.js:64-80 | Corrected: for every notification raised for a medication, the click reads that medication's id and "take" opens the dashboard for it. |
| UseAlarm.HookBeeps | src/hooks/useAlarm.js:131-158 | After n beeps (at most 20) a loop has played n pitches: 880 Hz on even counts and 1100 Hz on odd ones, so no two neighbours are equal. |
| UseAlarm.TriggerNotification | src/hooks/useAlarm.js:105-112 | The hook's notification is titled for the medication, tagged "med-id" and requires interaction. |
| UseAlarm.HookTestMedication | src/hooks/useAlarm.js:203-210 | The test record has id "test", name "Test Medication", dosage "Test dosage", and the current minute as a well-formed time. |
| UseAlarm.AlarmHook.constructor | src/hooks/useAlarm.js:28-38 | On mount nothing rings. The browser's permission is read, and the user's answer is kept when it was 'default'. |
| UseAlarm.AlarmHook.TriggerAlarm | src/hooks/useAlarm.js:100-166 | Always rings with the medication, even over a ringing alarm, and notifies only with permission. It starts a new loop at its first beep with a new interval and a new timeout, and the old ones stay live. |
| UseAlarm.AlarmHook.IntervalFires | src/hooks/useAlarm.js:134-158 | Below 20, a loop beeps at the pitch of its count and counts up. At 20 it clears whatever interval the ref holds now, without nulling the ref. |
| UseAlarm.AlarmHook.StopAlarm | src/hooks/useAlarm.js:168-181 | Nothing rings and both refs are cleared and nulled. When nothing rang, no timer changes. |
| UseAlarm.AlarmHook.TimeoutFires | src/hooks/useAlarm.js:163-165 | An auto-stop stops whatever alarm rings now. Only the interval and timeout the refs hold are cleared, besides the timeout that fired; a loop started by an earlier trigger keeps beeping. |
| UseAlarm.AlarmHook.SnoozeAlarm | src/hooks/useAlarm.js:183-192 | Returns the previous current alarm and now plus the minutes times 60000 ms, and leaves the hook stopped. Only the interval and timeout the refs hold are cleared; older loops stay live. |
| UseAlarm.AlarmHook.RequestPermission | src/hooks/useAlarm.js:194-201 | The user is asked only when notifications exist and the permission is 'default'. Otherwise the held permission is returned unchanged. The alarm, its refs and its live timers are untouched. |
| UseAlarm.AlarmHook.TestAlarm | src/hooks/useAlarm.js:203-210 | Triggers the test record exactly as `TriggerAlarm` triggers a medication: it rings, the refs take a new interval and timeout, both are added to the live timers, and the permission stays. |
| UseAlarm.AutoStopLeavesFirstLoop | src/hooks/useAlarm.js:100-181 | After two triggers, the first trigger's auto-stop silences the hook, but the beep loop that trigger started stays live at its first count. |
| AuthContext.LoginDecision | src/context/AuthContext.jsx:18-39 | The demo credentials always sign in as the demo user. Otherwise the first stored user with that email and password signs in, and there is no one exactly when no user matches. |
| AuthContext.SignupDecision | src/context/AuthContext.jsx:41-63 | Rejected with "Email already registered" exactly when a stored user has the email. Otherwise exactly one user is appended and the session user has no password. |
| AuthContext.SignupThenLogin | src/context/AuthContext.jsx:18-63 | After a signup, logging in with the same email and password signs in as the new user (or the demo user for the demo credentials), and the email cannot be registered again. |
| AuthContext.LoginResult | src/context/AuthContext.jsx:18-39 | Success exactly when someone is signed in, else "Invalid email or password". |
| AuthContext.AuthProvider.constructor | src/context/AuthContext.jsx:9-16 | On mount the stored session user, if any, is signed in. |
| AuthContext.AuthProvider.Login | src/context/AuthContext.jsx:18-39 | On success the decided user is signed in. On failure the session is left as it was, and the stored users never change. |
| AuthContext.AuthProvider.Signup | src/context/AuthContext.jsx:41-63 | A rejection changes nothing. Otherwise the list gains the one new user, who is signed in. |
| AuthContext.AuthProvider.Logout | src/context/AuthContext.jsx:65-68 | Nobody is signed in, and the stored users stay. |
| SignupPage.PasswordError | src/pages/Signup.jsx:22-30 | A mismatch is reported before a short password, and there is no error exactly when both checks pass. |
| SignupPage.HandleSubmit | src/pages/Signup.jsx:18-39 | signup is called exactly when both checks pass. A failed check shows its message and returns early. After a call the returned error is shown (or none), and loading ends false. |
| SignupPage.SubmitOutcome | src/pages/Signup.jsx:18-39 | With valid matching passwords the page shows no error exactly when the email is new, and otherwise "Email already registered". A mismatch never reaches signup. |

## Left out

- Web Audio synthesis is replaced by the pitch of each beep. Oscillators, gain envelopes and `currentTime` are floating point and audible only; the beep counter and its pitch table are kept. Audio failing is one flag (`Env.audioAvailable`), and a single beep that throws is not modelled.
- Real timers are not modelled: the 10-second periodic scan interval, the 400 ms beep interval, the 12 s and 10 s auto-stops, the midnight delay, and `SCHEDULE_ALARM`'s delay. Each handle is a field, and each firing is a method the caller invokes.
- The clock is one millisecond count on the local clock. Time-zone changes and daylight saving are left out. `toDateString` is stood in for by the decimal day number; the key keeps its shape and its injectivity.
- The second `new Date()` in the snooze test of the periodic scan (src/context/AlarmContext.jsx:42) is taken to be the tick's own moment.
- React rendering and stale closures, such as the `isRinging` captured by `triggerAlarm` (src/context/AlarmContext.jsx:120): state is read as its current field values.
- Notification, service-worker messaging, `clients.matchAll`/`focus`/`openWindow` and `localStorage` are outputs or parameters (`Env`, `Notice`, `Effect`, the users list). JSON parsing and the per-user storage keys (src/context/MedicationContext.jsx:12-59) are not part of this model, and neither is the demo data loaded for the demo user.
- The concurrency between page and service worker is not modelled: message delivery, ordering, and the page-side handling of MARK_TAKEN and SNOOZE in main.jsx.
- The alarm provider's own `requestPermission` (src/context/AlarmContext.jsx:218-234) and its mount-time permission read (21-25) are left out. They affect no state the model holds besides a display flag.
- The default of 5 minutes for `snoozeAlarm` (src/context/AlarmContext.jsx:199, src/hooks/useAlarm.js:183) is not modelled. Every caller passes the minutes (src/components/AlarmModal.jsx:12-25), so both `SnoozeAlarm` methods take them as a parameter.
- useAlarm's `playAlarmPattern` (src/hooks/useAlarm.js:47-98) is never called, so it is not modelled.
- The service worker's background sync `checkMedications` does nothing, so it is not modelled.
- Dashboard.AdherencePercent: `Math.round` on the float quotient is modelled as exact integer rounding half up. The two can differ only where the float division is inexact at a half.
- Dashboard.LexLe: `localeCompare` collation is modelled as ordinal order on characters. On the stored "HH:MM" the two agree.
- Text.ParseInt: `parseInt` and `Number` are modelled for strings without a sign, leading white space or exponent. `Text.NumberOf` also returns None where `Number` would read trailing white space ("7 "), fractions, `0x` hexadecimal or "Infinity"; none of these occurs in a stored "HH:MM". Text.IsJsWhiteSpace lists the ECMAScript white space and line terminators; string lengths count characters, not UTF-16 code units.
- AddMedication.Hour24: the contract fixes the hour only for the picker's values 1-12; other values parseInt could return do not come from the picker's options (src/pages/AddMedication.jsx:135).
- AlarmContext.AlarmProvider.Tick: the timer handles it leaves set are stated only as present or absent, not by value.
- Dashboard.TakenCount counts every key of the taken map, including ids of records deleted since, so the adherence percentage can exceed 100. `AdherenceBounds` therefore assumes no more taken than there are records.

## Findings

| source | as written | input that shows it | evidently intended | confidence | as-written member | corrected member |
|---|---|---|---|---|---|---|
| public/sw.js:156 | `SHOW_NOTIFICATION` stores the medication object itself as the notification's `data` (line 156). The click handler reads `data.medicationId` (lines 71, 77, 88), a field that object does not have; it has `id`. | An alarm rings while a service worker controls the page, and the user presses "take" on the notification with no dashboard window open. The worker opens `/dashboard?action=taken&id=undefined`; with a dashboard window open, it posts MARK_TAKEN without an id. | The click reads the medication's id for page-raised notifications, as it already does for `SCHEDULE_ALARM` notifications. | not executed | ServiceWorker.PageNotificationClickLosesId | ServiceWorker.ClickRecoversMedicationId |
