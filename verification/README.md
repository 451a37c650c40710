# Notification decision service — Dafny model

This project models the decision core of a small notification service. An
incoming event names a user, an event type and a timestamp. The service
answers in one of three ways:

- notify now (`PROCESS_NOTIFICATION`, status 202);
- suppress, because the user unsubscribed from that event type
  (`DO_NOT_NOTIFY` / `USER_UNSUBSCRIBED_FROM_EVENT`, 200);
- suppress, because the event falls inside the user's Do Not Disturb (DND)
  window (`DO_NOT_NOTIFY` / `DND_ACTIVE`, 200).

A malformed event is rejected with 400 and its list of issues. Any other
failure gives 500.

The model is functional. Datatypes stand for the records, pure functions for
the operations, and lemmas state the properties. The modules follow the
source files:

| module | file | what it holds |
|---|---|---|
| `UsersModel` | `src/models/users.model.ts` | the `usr_XXXXX` identifier rule, the shared prefixed-identifier shape, and a matcher method for it |
| `EventsModel` | `src/models/events.model.ts` | `evt_XXXXX` identifiers, the closed `EventType` enumeration, the `YYYY-MM-DDTHH:MM:SSZ` timestamp, whole-event validation |
| `PreferencesModel` | `src/models/preferences.model.ts` | `HH:MM` clock times, the DND window, per-type `enabled` settings, record validation |
| `Utils` | `src/utils/utils.ts` | `isTimeBetween`: minutes since midnight and the wrap / no-wrap window test |
| `PreferencesService` | `src/services/preferences.service.ts` | the repository as a `map` value, `getPreferences` / `setPreferences`, and the seed records |
| `EventsController` | `src/controllers/events.controller.ts` | the `POST /events` decision chain, outcomes and status codes, and the controller tests' scenarios |
| `Decimal`, `Wrappers` | — | helpers: fixed-width digit strings (`parseInt` on a digit group, and zero-padded writing), `Option` and `Result` |

Environment inputs are parameters:

- The process time zone is a fixed offset, `utcOffset`, in minutes east of UTC.
  It is applied the same way to every event.
- The preference lookup is a function `string -> Lookup`. It returns
  `Found(record)`, `Undefined` (no record) or `Threw` (an exception).
  `HandleEventWithStore` wires it to a store value.

Where the intended design and the code disagree, the model follows the code:

- An unknown user ends in 500, not in a separate "not found" answer.
  `getPreferences` returns `undefined` for an unknown user. Reading
  `.eventSettings` from it at `events.controller.ts:18` then throws.
- Timestamps must carry whole seconds (`precision: 0`), not just minutes.
  Only the UTC designator `Z` is accepted.
- A record's settings cannot lack an event type. The record type has one field
  per type, and `PreferencesModel.Preferences.Valid` demands a setting for
  each.

## Model

| member | source | states |
|---|---|---|
| UsersModel.MatchIdFormat | src/models/users.model.ts:3-8 | the left-to-right matcher accepts a string exactly when it is the prefix followed by exactly five characters from `[a-zA-Z0-9]` (anchored at both ends) |
| UsersModel.UserIdLength | src/models/users.model.ts:6 | every valid user identifier is 9 characters long |
| UsersModel.UserIdExamples | src/models/users.model.ts:6-7 | `usr_abcde` and `usr_12345` are accepted; a short, long, punctuated or upper-case-prefix identifier is rejected |
| EventsModel.EventIdIsNeverUserId | src/models/events.model.ts:4-9 | no string is both a valid event identifier and a valid user identifier |
| EventsModel.ParseEventType | src/models/events.model.ts:15 | a string is accepted as an event type only when it is that type's own name |
| EventsModel.EventTypeEnumeration | src/models/events.model.ts:15 | there are exactly two event types, and each type's name is accepted as that type |
| EventsModel.ParseTimestamp | src/models/events.model.ts:12 | an accepted timestamp is a real calendar instant: month 1-12, a day that exists in that month and year, hour below 24, minute and second below 60 |
| EventsModel.TimestampRoundTrip | src/models/events.model.ts:12 | the `YYYY-MM-DDTHH:MM:SSZ` text of every valid instant is accepted and denotes that instant |
| EventsModel.TimestampCanonical | src/models/events.model.ts:12 | every accepted text is the `YYYY-MM-DDTHH:MM:SSZ` form of the instant it yields; with the round trip, a string is accepted exactly when it is such a form |
| EventsModel.BareClockTimeIsNotTimestamp | src/controllers/events.controller.test.ts:139-144 | the bare clock time `23:30` is not a valid timestamp |
| EventsModel.FullDateTimeIsTimestamp | src/controllers/events.controller.test.ts:58-63 | `2025-01-01T19:00:00Z` is a valid timestamp and denotes 19:00:00 UTC on 1 January 2025 |
| EventsModel.LateDateTimeIsTimestamp | src/controllers/events.controller.test.ts:116-121 | `2025-01-01T23:00:00Z` is a valid timestamp and denotes 23:00:00 UTC on 1 January 2025 |
| EventsModel.NonLeapFebruary29IsRejected | src/models/events.model.ts:12 | 29 February of a non-leap year is rejected, although each field is in its digit range |
| EventsModel.ValidateEvent | src/models/events.model.ts:18-23 | an event is accepted exactly when all four fields are valid; it then carries the identifiers, type and instant that were sent; otherwise the issue list is non-empty and names exactly the invalid fields |
| EventsModel.AnyInvalidFieldRejects | src/models/events.model.ts:18-23 | any single invalid field rejects the whole event and is reported |
| PreferencesModel.ParseClockTime | src/models/preferences.model.ts:7-8 | an accepted DND bound is a valid minute-precision time: hour 0-23, minute 0-59 |
| PreferencesModel.ClockTimeRoundTrip | src/models/preferences.model.ts:7-8 | the `HH:MM` text of every valid clock time is accepted and yields that time |
| PreferencesModel.ClockTimeCanonical | src/models/preferences.model.ts:7-8 | every accepted bound is the `HH:MM` text of the time it yields, so a bound is accepted exactly when it is such a text |
| PreferencesModel.ToMinutes | src/utils/utils.ts:28-29 | `H*60+M` of a valid bound lies in 0..1439 |
| PreferencesModel.FromMinutes | src/utils/utils.ts:27-29 | every minute-of-day value 0..1439 is `H*60+M` of exactly one valid clock time |
| PreferencesModel.ToMinutesInjective | src/utils/utils.ts:19-29 | hour and minute can be recovered from `H*60+M`, so distinct valid bounds give distinct minute counts |
| PreferencesModel.SettingLookupTotal | src/models/preferences.model.ts:10-17 | a record has a setting for every event type exactly when it has the `item_shipped` and `invoice_generated` settings; so the per-type lookup never misses on a valid record |
| PreferencesModel.ValidatePreferences | src/models/preferences.model.ts:5-18 | a preference body is accepted exactly when both DND bounds are `HH:MM` times and both `enabled` flags are present; the record then has the bounds written, the flags sent, and a setting for every type |
| Utils.LocalMinuteOfDay | src/utils/utils.ts:25-27 | the local minute-of-day of a UTC `hour:minute` reading, shifted by the zone offset, lies in 0..1439 |
| Utils.IsTimeBetween | src/utils/utils.ts:12-35 | the instant is inside the DND window exactly when, walking forward round the clock from `start`, its local time is reached before `end` |
| Utils.ForwardCharacterization | src/utils/utils.ts:31-34 | the two-branch comparison agrees with the walk-forward reading of a window, for every check, start and end in 0..1439 |
| Utils.NonWrappingWindow | src/utils/utils.ts:34 | when `end >= start`, membership holds exactly for `start <= check < end` |
| Utils.WrappingWindow | src/utils/utils.ts:31-32 | when `end < start`, membership holds exactly for `check >= start` or `check < end` |
| Utils.DegenerateWindowIsEmpty | src/utils/utils.ts:32-34 | a window whose start equals its end contains no minute |
| Utils.WindowBoundaries | src/utils/utils.ts:31-34 | the start is inside every non-empty window; the end is never inside |
| Utils.WrapIsComplement | src/utils/utils.ts:31-34 | a wrapping window `[s, e)` holds exactly where the plain window `[e, s)` does not |
| Utils.OnlyHourAndMinuteMatter | src/utils/utils.ts:25-27 | two instants with the same hour and minute get the same answer, whatever their date and seconds |
| PreferencesService.GetPreferences | src/services/preferences.service.ts:39-43 | the lookup finds a record exactly when the user has one, and then it is the stored record; otherwise it gives `None` |
| PreferencesService.SetPreferences | src/services/preferences.service.ts:46-51 | after a write the store has the old users plus this one, and every other user's record is unchanged |
| PreferencesService.GetAfterSet | src/services/preferences.service.ts:42-50 | reading a user right after writing them gives exactly the record written |
| PreferencesService.SetLeavesOthersUnchanged | src/services/preferences.service.ts:50 | a write leaves every other user's lookup as it was, whether present or absent |
| PreferencesService.SetOverwrites | src/services/preferences.service.ts:50 | a write is a wholesale overwrite: nothing of the earlier record survives |
| PreferencesService.SetIdempotent | src/services/preferences.service.ts:50 | writing the same record twice gives the same store as writing it once |
| PreferencesService.SetPreservesValidity | src/controllers/preferences.controller.ts:41-44 | writing a validated record under a validated identifier keeps every key a valid user identifier and every record valid |
| PreferencesService.SeedContents | src/services/preferences.service.ts:7-36 | the seed holds exactly `usr_abcde` (DND `22:00`-`07:00`) and `usr_efghi` (DND `21:00`-`04:00`), both event types enabled, and is a valid store |
| EventsController.StatusCode | src/controllers/events.controller.ts:19-43 | a decision gets a 2xx status, a malformed event 4xx, any other failure 5xx |
| EventsController.ResponseIdentifiesDecision | src/controllers/events.controller.ts:19-36 | the status plus the `decision` and `reason` fields sent tell the three decisions apart |
| EventsController.StoreLookup | src/services/preferences.service.ts:39-43 | the store-backed lookup never throws; it finds exactly the records the store holds |
| EventsController.Decide | src/controllers/events.controller.ts:18-37 | every validated event with a valid record gets a decision; it is "unsubscribed" exactly when the event type is disabled, whatever the DND window |
| EventsController.HandleEvent | src/controllers/events.controller.ts:11-45 | 400 with the issue list exactly when validation fails; 500 exactly when the body is valid but the user's lookup yields no record or throws; otherwise the decision for the user's own record |
| EventsController.HandleEventWithStore | src/controllers/events.controller.ts:13-18 | against a store, a valid event for a user with no record ends in failure, and a decision is only reached for a stored user |
| EventsController.UnsubscribedWins | src/controllers/events.controller.ts:18-22 | a disabled event type is answered "unsubscribed" under every DND window |
| EventsController.SubscribedFollowsWindow | src/controllers/events.controller.ts:23-37 | for an enabled type: "DND active" exactly when the time is inside the user's own window, and "notify" exactly when it is outside |
| EventsController.InvalidBodyNeverLooksUp | src/controllers/events.controller.ts:13-41 | an invalid body gets 400, the same answer whatever the lookup would do |
| EventsController.OnlyOwnRecordConsulted | src/controllers/events.controller.ts:15-29 | two lookups that agree on the event's user give the same answer |
| EventsController.ExactlyOneOutcome | src/controllers/events.controller.ts:11-45 | every request gets one of the five outcomes, and each outcome has its own status: 202, 200, 400 or 500 |
| EventsController.ScenarioProcess | src/controllers/events.controller.test.ts:48-74 | subscribed, 19:00 UTC, DND `22:00`-`08:00`: 202 `PROCESS_NOTIFICATION` |
| EventsController.ScenarioUnsubscribed | src/controllers/events.controller.test.ts:76-104 | unsubscribed: 200 `USER_UNSUBSCRIBED_FROM_EVENT` |
| EventsController.ScenarioDndActive | src/controllers/events.controller.test.ts:106-133 | subscribed, 23:00 UTC, DND `22:00`-`08:00`: 200 `DND_ACTIVE` |
| EventsController.ScenarioBadTimestamp | src/controllers/events.controller.test.ts:135-153 | timestamp `23:30`: 400, with an issue naming the timestamp only |
| EventsController.ScenarioLookupThrows | src/controllers/events.controller.test.ts:155-174 | a lookup that throws gives 500 for every valid body, never a decision |

## Left out

- Express routing, `res.status(...).send(...)` and the `console.log` calls
  (`events.controller.ts:8-9`). These are HTTP input and output. Outcomes are a
  datatype, and `StatusCode`, `DecisionText` and `ReasonText` give the status
  and body fields.
- `src/controllers/preferences.controller.ts` as a whole. It is a
  validate-then-store HTTP handler. Its validation is covered by
  `ValidatePreferences` and `IsUserId`, and its guarantee to the store by
  `StoreValid` / `SetPreservesValidity`.
- The key of the 500 payload. The code sends `{ message: err }`
  (`events.controller.ts:43`), while the test expects `{ error: ... }`
  (`events.controller.test.ts:173`). Only the outcome kind and the status are
  modelled.
- `getZodError` and zod's issue objects (codes, messages, paths). An issue is
  modelled as the name of the field it concerns.
- EventsModel.ValidateEvent: a body that is not a JSON object is outside the
  model. Extra keys, which zod strips, are not modelled either. Each field is
  either the string sent or absent / not a string.
- EventsModel.ParseTimestamp: the date-time grammar lives inside zod, which is
  not part of this model. It is modelled as the form `iso.datetime({ precision:
  0 })` accepts with default options: `YYYY-MM-DDTHH:MM:SSZ`, with the
  Gregorian calendar and no offsets or fractions.
- Utils.LocalMinuteOfDay: the process time zone behind `Date.getHours()` is one
  fixed offset in whole minutes. Daylight-saving changes are not modelled.
- `parseInt` on malformed text (`utils.ts:19-22`). Only validated `HH:MM` bounds
  reach it. There, `parseInt` reads the digit group as `Decimal.DecimalValue`
  does.
- The module-level mutable repository and any concurrency around it
  (`preferences.service.ts:7`). The store is an immutable map value. Reading it
  returns no new store, so a lookup cannot change it.
- The controller tests mock the event type as `event_type`. The scenario lemmas
  use `item_shipped` instead. They also compute the DND test rather than mock
  it, with the process in UTC.
- EventsController.HandleEvent: it requires every record the lookup returns to
  be valid, as the store invariant `StoreValid` guarantees. A stored record
  with malformed DND bounds, on which `parseInt` would give `NaN`, is outside
  the model.
- `eslint.config.mjs` and the jest mocking machinery.
