# Water-level ingestion and alert configuration — a Dafny model

This project models the backend core of a flood-warning system. Field
sensors post water-level readings. Each reading is classified against the
device's threshold band (LOW / NORMAL / HIGH). The reading, and an alert for
a crossing status, are stored in one transaction. After the commit, a
best-effort Telegram notification is sent. Around this ingestion path sit the
dashboard endpoints that read and edit the threshold configuration and
query the reading history.

The relational store is an immutable value (`Store.Store`): the `devices`
and `alert_config` tables are maps keyed by the external device id; the
`water_readings` and `alerts` tables are sequences in insertion order. Each
HTTP handler is a pure function from (store, request, environment) to
(reply, new store). Things the handlers get from outside become parameters:

- the shared secret, the default chat id and the clock (`Ingest.Env`);
- a storage error in a given SQL statement (`Store.Fault`);
- the outcome of the Telegram call (`Ingest.SendResult`).

Modules, leaf first:

| module | file | models |
|---|---|---|
| `Common` | common.dfy | nullable values, the `{success, data, error}` reply envelope |
| `Text` | text.dfy | `filter`/`join` on lines, substring containment |
| `Store` | store.dfy | the four tables, SQL steps and storage faults, ensure-device |
| `Thresholds` | thresholds.dfy | classifier, defaults, NULL substitution, notification target |
| `AlertText` | alert_text.dfy | the alert message template |
| `Integrity` | integrity.dfy | the store invariant (serial ids, ownership, one alert per crossing reading) |
| `Ingest` | ingest.dfy | `handleWaterLevel`: validation, transaction, rollback, post-commit dispatch |
| `ConfigApi` | config_api.dfy | `getConfig`, `updateConfig` |
| `JsNumbers` | js_numbers.dfy | JavaScript `parseInt(text, 10)` and `String(n)` |
| `ReadingsApi` | readings_api.dfy | `getReadings`, `getLatestReading` |

Behaviour of the code that is easy to miss:

- Alert creation never looks at the alert-enabled flag (`Ingest.AlertIgnoresEnabledFlag`).
- The alert line list has an empty placeholder after the header. The empty-line
  filter removes it too, so the message has no blank line there
  (`AlertText.MessageLayout`).
- Ingestion reports a stored empty chat id as `""` and treats it like NULL, so the
  default chat id is used if there is one (`Thresholds.Target`). `getConfig`
  reports it as null (`ConfigApi.ChatIdView`).
- In the history query, a negative `limit` or `offset` passes the `|| default`
  fallback and reaches SQL, where PostgreSQL refuses it. The handler then
  answers 500.

## Model

| member | source | states |
|---|---|---|
| Common.ErrorCode | backend/src/controllers/iotController.ts:285-291 | the error code is the error's message when it has one, and exactly the handler's generic code when the message is empty |
| Text.DropEmpty | backend/src/controllers/iotController.ts:213 | the filter keeps exactly the non-empty lines, each as often as it occurs, none of them empty, and changes nothing when no line is empty |
| Text.DropEmptyAppend | backend/src/controllers/iotController.ts:213 | filtering a concatenation filters each part in place, so the kept lines stay in their original order |
| Text.JoinContainsEach | backend/src/controllers/iotController.ts:204-214 | every line occurs in the joined text |
| Store.EnsureDevice | backend/src/controllers/iotController.ts:63-79 | afterwards the device exists; an unseen id adds exactly one device named "Device <id>" with empty location; existing devices are untouched |
| Thresholds.Classify | backend/src/controllers/iotController.ts:126-132 | with a percentage: LOW iff below min, HIGH iff at least min and above max, NORMAL iff within [min, max]; without one: the reported status, else UNKNOWN |
| Thresholds.ClassifyPartitions | backend/src/controllers/iotController.ts:128-132 | for an ordered band every level is exactly one of LOW (below min), HIGH (above max), NORMAL (inside) |
| Thresholds.Resolve | backend/src/controllers/iotController.ts:93-121 | no row gives {20, 90, true, none}; each non-NULL stored min/max/enabled is used as stored, each NULL one becomes its default; the chat id has no default |
| Thresholds.DefaultRowResolvesToDefaults | backend/src/controllers/iotController.ts:98-105 | the inserted default row resolves to the same configuration as no row, so resolve-or-create is idempotent |
| Thresholds.EnsureConfig | backend/src/controllers/iotController.ts:98-121 | a missing row is inserted as (20, 90, true, NULL); existing rows are untouched; the configuration in force does not change |
| Thresholds.Target | backend/src/controllers/iotController.ts:160-161 | the device chat id when non-empty, else the default chat id when non-empty, else no target; a target is never empty |
| AlertText.MessageLayout | backend/src/controllers/iotController.ts:187-214 | for LOW/HIGH the message is header, device line, level line, threshold line and action hint joined by newlines, the empty placeholder being dropped |
| AlertText.MessageNamesDevice | backend/src/controllers/iotController.ts:204-214 | an alert message contains the device's display name and its id |
| AlertText.MessageShowsLevel | backend/src/controllers/iotController.ts:168-171 | an alert message contains the level text it was given |
| Integrity.AlertIffCrossing | backend/src/controllers/iotController.ts:159-166 | in a valid store a reading has an alert exactly when its status is LOW or HIGH |
| Integrity.AppendKeepsValid | backend/src/controllers/iotController.ts:139-231 | appending the next reading, and its alert exactly when it crosses, keeps ids serial, rows owned by known devices and alerts one-to-one with crossing readings |
| Ingest.Executed | backend/src/controllers/iotController.ts:50-242 | the transaction always connects, begins, looks up the device and its configuration, inserts the reading and commits; it inserts a device exactly when the device is unseen, a configuration exactly when none is stored, and an alert exactly when the level is LOW or HIGH; it never updates a configuration |
| Ingest.HandleWaterLevel | backend/src/controllers/iotController.ts:17-293 | any failure leaves the store unchanged and sends nothing; success iff the id is present, the secret accepted and no executed statement fails; success appends exactly the replied reading |
| Ingest.MarkSent | backend/src/controllers/iotController.ts:250-253 | exactly the alerts with the given id get the sent flag set; all others are unchanged |
| Ingest.MissingDeviceIdRejected | backend/src/controllers/iotController.ts:30-36 | an absent or empty device id gives 400 DEVICE_ID_REQUIRED, the store unchanged, no notification |
| Ingest.WrongSecretRejected | backend/src/controllers/iotController.ts:40-47 | with a secret configured, any other key gives 403 INVALID_SECRET_KEY, the store unchanged, no notification |
| Ingest.NoSecretIgnoresKey | backend/src/controllers/iotController.ts:40-41 | without a configured secret the outcome does not depend on the submitted key and is never 403 |
| Ingest.StorageFaultRollsBack | backend/src/controllers/iotController.ts:279-291 | a storage error in any executed statement gives 500 with the error's message (or IOT_ERROR), the store as before, no notification |
| Ingest.DeviceEnsured | backend/src/controllers/iotController.ts:63-79 | on success the device exists, an unseen one is created as "Device <id>" with empty location, others are untouched, and the reply names it as stored |
| Ingest.ConfigEnsured | backend/src/controllers/iotController.ts:84-121 | on success a missing configuration is created with the defaults, existing ones are untouched, and the reply carries the configuration in force |
| Ingest.ReadingAppended | backend/src/controllers/iotController.ts:136-153 | on success exactly one reading is appended with the next id, the submitted levels, the classified status and the submitted timestamp or now |
| Ingest.AlertRecorded | backend/src/controllers/iotController.ts:159-231 | one alert is appended iff the status is LOW or HIGH, with the next id, the new reading's id, the matching kind, the rendered text and sent only if delivered; earlier alerts are untouched |
| Ingest.AlertTextNamesDevice | backend/src/controllers/iotController.ts:204-214 | the text of a raised alert names the device's stored or default name and its id, and shows the level as the percentage formatted by `toFixed(1)` with "%" or as the "unknown" placeholder |
| Ingest.AlertIgnoresEnabledFlag | backend/src/controllers/iotController.ts:159-166 | changing the stored alert-enabled flag changes neither the alerts written nor the notification |
| Ingest.DispatchRules | backend/src/controllers/iotController.ts:233-248 | a notification is attempted iff the request succeeded, the status crosses and a target resolves; it goes to that target with the alert text |
| Ingest.DispatchIsolated | backend/src/controllers/iotController.ts:242-278 | the reply does not depend on the send outcome; a failed send leaves the committed store; a delivered one only marks the new alert sent |
| Ingest.SentNeverReverts | backend/src/controllers/iotController.ts:246-258 | an existing alert keeps every field except possibly the sent flag, which can only go from false to true |
| Ingest.FirstContact | backend/src/controllers/iotController.ts:63-105 | an unseen device gains exactly one device row and one default configuration row, and the defaults are in force |
| Ingest.ScenarioLowOnDefaults | backend/src/controllers/iotController.ts:93-166 | 15% on a device without configuration is LOW and records one LOW_LEVEL alert |
| Ingest.ScenarioNormalOnDefaults | backend/src/controllers/iotController.ts:93-166 | 55% on a device without configuration is NORMAL, with no alert and no notification |
| Ingest.ScenarioHighWithTarget | backend/src/controllers/iotController.ts:109-239 | 95% against a stored maximum of 90 is HIGH, records one HIGH_LEVEL alert and notifies the resolved target |
| Ingest.ScenarioWrongSecret | backend/src/controllers/iotController.ts:40-47 | with secret "abc" the key "wrong" is refused with 403 and nothing is written |
| Ingest.MarkSentKeepsValid | backend/src/controllers/iotController.ts:250-253 | setting the sent flag keeps the store invariant |
| Ingest.TransactionKeepsValid | backend/src/controllers/iotController.ts:59-242 | the committed transaction keeps the store invariant |
| Ingest.HandleKeepsValid | backend/src/controllers/iotController.ts:17-293 | every ingestion request, whatever its outcome, keeps the store invariant |
| ConfigApi.ChatIdView | backend/src/controllers/deviceController.ts:175 | a stored empty or NULL chat id reads as null; any other is reported as stored |
| ConfigApi.GetConfig | backend/src/controllers/deviceController.ts:134-197 | no row gives {20, 90, true, null, isDefault}; a row gives its non-NULL values with defaults for NULL ones and isDefault false; a storage error gives 500 |
| ConfigApi.Merge | backend/src/controllers/deviceController.ts:235-263 | per field: a well-typed request value wins, else the stored non-NULL value, else the default; the chat id is kept only when the request omits it, and an explicit null overwrites it |
| ConfigApi.UpdateExecuted | backend/src/controllers/deviceController.ts:213-284 | the upsert always connects, begins, looks up the device and its row and commits; it inserts a device exactly when the device is unseen, and updates the stored row when there is one and inserts a row otherwise |
| ConfigApi.UpdateConfig | backend/src/controllers/deviceController.ts:200-313 | the update fails exactly when a storage error hits a statement the upsert runs, with 500, the code `err.message || "INTERNAL_ERROR"` and the store unchanged; on success the device is ensured, its row becomes the merge of the request with the stored row, and the reply holds the merged values; readings and alerts are never touched |
| ConfigApi.UpdateWritesOneRow | backend/src/controllers/deviceController.ts:213-284 | on success the device has exactly one configuration row, other rows are untouched, and a missing device is created as "Device <id>" |
| ConfigApi.UpdateThenGet | backend/src/controllers/deviceController.ts:265-298 | reading the configuration after an update returns the values the update replied with (a blank chat id reading as null), no longer marked default |
| ConfigApi.UpdateIdempotent | backend/src/controllers/deviceController.ts:235-284 | applying the same update twice gives the same reply and store as applying it once |
| ConfigApi.EmptyUpdateKeepsView | backend/src/controllers/deviceController.ts:243-263 | an update with no fields leaves every value the dashboard reads unchanged, only clearing isDefault |
| ConfigApi.GetConfigAgreesWithResolve | backend/src/controllers/deviceController.ts:164-175 | the dashboard reads the same thresholds and flag as ingestion uses |
| ConfigApi.UpdateKeepsValid | backend/src/controllers/deviceController.ts:213-284 | an update keeps the store invariant |
| JsNumbers.ParseIntText | backend/src/controllers/deviceController.ts:85-86 | parsing a printed integer gives it back, whatever white space precedes it and whatever non-digit text follows |
| ReadingsApi.PageLimit | backend/src/controllers/deviceController.ts:85 | the page size never exceeds 1000 and is never zero; an absent, unparseable or zero limit gives 100; any other parsed limit n, negative included, gives min(n, 1000) |
| ReadingsApi.PageOffset | backend/src/controllers/deviceController.ts:86 | an unparseable offset gives 0, any parsed one is used as is |
| ReadingsApi.PageLimitOfNumeral | backend/src/controllers/deviceController.ts:85 | an integer limit n gives 100 when n is 0 and min(n, 1000) otherwise |
| ReadingsApi.PageLimitDefault | backend/src/controllers/deviceController.ts:63 | without a limit parameter the page size is 100 |
| ReadingsApi.PageOffsetOfNumeral | backend/src/controllers/deviceController.ts:86 | an integer offset is used as written |
| ReadingsApi.Matching | backend/src/controllers/deviceController.ts:67-83 | the result holds each reading of the device inside the inclusive [from, to] window as often as stored, and nothing else |
| ReadingsApi.SortDesc | backend/src/controllers/deviceController.ts:93 | the result is a permutation of its input ordered newest first |
| ReadingsApi.Window | backend/src/controllers/deviceController.ts:94 | the window holds the min(limit, remaining) items that follow the first offset items, in order |
| ReadingsApi.MakePage | backend/src/controllers/deviceController.ts:88-124 | the page echoes limit and offset, its total counts every filtered reading, and its items are stored readings of the device inside the window, newest first, min(limit, total - offset) of them (none past the end); they are exactly the offset..offset+limit slice of some newest-first ordering of the filtered readings |
| ReadingsApi.GetReadings | backend/src/controllers/deviceController.ts:61-131 | succeeds iff there is no storage error and the clamped limit and offset are non-negative; a storage error gives 500 with `err.message || "INTERNAL_ERROR"`, otherwise a negative offset gives 500 with the database's OFFSET message, and failing that a negative limit gives its LIMIT message (the database checks OFFSET first); on success the page is built from the clamped limit and offset |
| ReadingsApi.TotalIgnoresPaging | backend/src/controllers/deviceController.ts:99-111 | the total is the same for every limit and offset |
| ReadingsApi.WindowsConcatenate | backend/src/controllers/deviceController.ts:94-96 | adjacent windows of one newest-first ranking join into one larger window with no gap or overlap; separate requests may order readings with equal timestamps differently, so this holds for pages only when the ties come back in the same order |
| ReadingsApi.GetLatestReading | backend/src/controllers/deviceController.ts:30-58 | null iff the device has no reading; otherwise a reading of the device that no other reading of it is newer than; a storage error gives 500 |
| ReadingsApi.LatestHeadsHistory | backend/src/controllers/deviceController.ts:34-43 | the latest reading is as new as the first item of the device's newest-first history |

## Left out

- Storage, connections and isolation (backend/src/config/db.ts) are not modelled. A transaction either commits its new store or returns the old one. A storage error is a parameter naming the failing statement. A failing ROLLBACK, the connection release and console logging are not modelled.
- The race between two concurrent first-contact requests for the same device is not modelled. It is a concurrency gap; the model is sequential.
- The Telegram HTTP call and its missing-token check (backend/src/services/telegram.ts) are replaced by the `SendResult` parameter. `SendFailed` also covers a failure of the sent-flag UPDATE, which the same catch swallows.
- `toFixed(1)` and JavaScript number-to-string formatting are the opaque functions `fixed1` and `numberText` of `Ingest.Env`. The centimetre text and `toLocaleString` time text are computed by the source but never used in the message, so they are not modelled.
- Levels are `real`, not IEEE doubles. NaN and infinities are not modelled.
- Date parsing of `timestamp`, `from` and `to` is not modelled. Times are integers supplied by the caller, and an invalid date string is not modelled.
- Request fields of an unexpected JSON type are not modelled. A non-string truthy `device_id` is one case. A non-numeric `water_level_percent` is another: the source stores it although it does not classify it, while the model treats it as absent. A non-string `telegramChatId` is a third.
- The created/updated timestamp columns of devices and configurations (`NOW()`) are not modelled, and they are never read by the core.
- Serial ids are modelled as position + 1. Gaps that a rolled-back sequence value leaves in PostgreSQL are not modelled.
- `getDevices` (backend/src/controllers/deviceController.ts:6-27) is not modelled. It orders by the internal serial id of the devices table, which the model does not carry.
- JsNumbers.ParseIntText: `parseInt` precision loss beyond 2^53 is not modelled, and neither are array-valued query parameters.
- ReadingsApi.GetReadings: when a storage error and a negative limit happen together, the model reports the storage error. `Promise.all` reports whichever query rejects first.
- ReadingsApi.GetReadings: the bigint range of LIMIT and OFFSET is not modelled, because integers are unbounded here. An offset of 2^63 or more, or a limit below -2^63, makes the database refuse the query with 500 and its out-of-range message. The model instead answers with an empty page, or with the LIMIT message.
- ReadingsApi.GetLatestReading: among equally new readings the model returns the first stored one. The database's choice is unspecified, so the contract states only that no other reading is newer.
- ReadingsApi.SortDesc: among equal timestamps it keeps table order, which is one of the orders the database may return. The contract states only the order and the permutation.
- Environment-variable reads are not modelled. The secret and the default chat id are explicit `Ingest.Env` fields; an unset variable is the empty string.
- Express routing, the server entry points, the debug routes and the React dashboard are not modelled.
