# Hospital monitoring: sensor buffering, local backup and patient counts

This project models, in Dafny, the data-handling core of a hospital monitoring
dashboard. Hospitals publish electricity, water and patient readings over MQTT,
and one global sensor publishes pH. It proves properties of six parts:

- **Server ingestion buffer** (`MqttDatabase`, src/server/plugins/mqtt-database.ts).
  - One shared, bounded hospital buffer and one bounded pH buffer.
  - The `'message'` handler normalises with `Number(x || 0)`.
  - The scheduled flush saves the latest entry per hospital code, paired with the newest pH.
  - The manual save, and the status readout.
- **Browser MQTT session** (`BrowserMqtt`, src/composables/useMqtt.ts).
  - The connection-status state machine.
  - A strict check of hospital messages: each field must be a number, `null` or `''`.
  - Global pH updates, and hospital switching.
  - Loading the hospital list with its default selection and fallback.
  - Backing up accepted readings to local storage.
- **Local backup store** (`LocalStorage`, src/composables/useLocalStorage.ts).
  - At most 100 items, newest last.
  - Queries by hospital.
  - A sync that sends one request per hospital and clears the store only when something was synced and nothing threw.
- **Realtime patient endpoint** (`RealtimeEndpoint`, src/server/api/patients/realtime.get.ts).
  It filters the external records per hospital and sums `jumlah`. The filter matches by department mapping, or else by exact `kdbagian`, and by day.
- **Patient sync endpoint** (`SyncEndpoint`, src/server/api/patients/sync.post.ts).
  It computes each hospital's total and saves it when the total is positive or the sync is forced. It then counts the saves that succeeded.
- **Patient monitor** (`RealTimePatients`, src/composables/useRealTimePatients.ts).
  - Lookups by hospital and the grand total.
  - Freshness.
  - The guarded fetch, and the single refresh interval.

Shared modules:

- `Common`: `Option`, `Result`, `message || fallback` and decimal rendering.
- `Payload`: parsed JSON field values and JavaScript truthiness.
- `SeqUtil`: bounded append, keep-newest, and the count of saves that did not throw.
- `Grouping`: the `reduce`-by-code both flush loops use. `Object.entries` iterates in insertion order for non-numeric codes, which the model assumes (see "## Left out").
- `PatientRecords`: the external records, with the filter and sum shared by both patient endpoints.

## How the model takes the program's form

Mutable state is a class with `seq` fields and methods with `modifies` clauses:

- `MqttDatabase.IngestionBuffer` and `LocalStorage.BackupStore`.
- `BrowserMqtt.MqttSession` and `RealTimePatients.PatientMonitor`.

Each method states its whole new state. It does so in terms of functions of the old state, such as `Ingest`, `FlushPlan`, `AfterFlush`, `AfterStore`, `SyncPlan`, `SyncResult` and `HandleMessage`. Lemmas state what the program promises about those functions.

The program's loops are methods with loop invariants:

- the flush loop, `SaveGroups`;
- the backup sync loop, `SendRequests`;
- the realtime result loop, `BuildHospitalData`;
- the sync loop, `SaveHospitals`.

Each is proved against a recursive specification function.

The environment is passed in as parameters:

- **Foreign calls.** The database save is a `failing` set of codes whose save throws. The `/api/save-data` replies are a function `respond` from request to reply. The external patient API and `getAllHospitals` are results passed to the handlers.
- **Clocks.** Timestamps and "today" are parameters.
- **Awaits.** Each `async` operation guarded by a loading flag is split into a `Begin…` method, which runs up to the first `await`, and a `Complete…` method, which runs after it.

Numbers are `real`. The server's `Number()` result is `Num = Finite(real) | NaN`.

## Behaviour worth knowing about

- **One buffer for all hospitals.** The server keeps a single hospital buffer shared by every source (mqtt-database.ts:12).
- **Failed hospitals lose their data.** A flush with at least one success empties the whole buffer, including the entries of a hospital whose save failed (mqtt-database.ts:189-191). `FailedHospitalEntriesDropped` states this.
- **The manual save uses the newest entry.** `saveBufferToDatabase` saves the newest buffered entry with that entry's own stored pH, and `pop`s it when the save succeeds (mqtt-database.ts:206,219).
- **Server normalisation never rejects a value that is present.** The server ignores a message on an unknown topic or with a field missing (mqtt-database.ts:89), and a `/ph` message whose `ph` is not a number (mqtt-database.ts:70). But once all three fields are present, it turns a non-numeric string into NaN and `true` into 1. The browser rejects `'12'` and `true`, where the server reads 12 and 1 (`BrowserMqtt.ValidationStricterThanServer`).
- **The buffer is cleared wholesale.** The clear at mqtt-database.ts:190 is not limited to the entries the flush read. Entries appended during the flush's awaits would be lost too; that is a concurrency effect and is not modelled (see below).
- **Empty `kdbagian`.** The two patient endpoints differ when a hospital's `kdbagian` is `''`. The realtime filter matches records whose department is `''`. The sync treats `''` as unset and computes 0, which is saved only on a forced sync (sync.post.ts:50). `SyncEndpoint.EmptyKdbagianDiffers` shows this.

One observation about the surrounding code, as context: `getAllHospitals` in src/server/utils/database.ts selects neither `kdbagian`, `bagian_mapping` nor `isActive`. With the code as it stands, every patient total is therefore 0, and every hospital loaded from `/api/hospitals` reads as inactive. The model takes hospital rows as given, with those fields optional.

## Model

| member | source | states |
|---|---|---|
| MqttDatabase.TimeHelpersAgree | src/server/plugins/mqtt-database.ts:7-9 | `hours(n)` is `minutes(60n)` and `days(n)` is `hours(24n)` |
| MqttDatabase.SaveIntervalMinutes | src/server/plugins/mqtt-database.ts:236 | the readout `SAVE_INTERVAL_MS / 60000` is exactly 5, and `minutes(5)` gives back the interval |
| MqttDatabase.TopicCode | src/server/plugins/mqtt-database.ts:85-87 | a code exists exactly for `/ruangMawar` and `/ruangMelati`, and it is a known code |
| MqttDatabase.NumberOrZero | src/server/plugins/mqtt-database.ts:93-95 | falsy values become 0, numbers are kept, `true` becomes 1, and NaN arises exactly for a non-empty, non-numeric string; it never rejects |
| MqttDatabase.DecimalRoundTrip | src/server/plugins/mqtt-database.ts:93-95 | a rendered natural number reads back through `Number(x \|\| 0)` as the same number |
| MqttDatabase.LatestPh | src/server/plugins/mqtt-database.ts:96 | the newest buffered pH, and `null` exactly when the pH buffer is empty |
| MqttDatabase.IngestPh | src/server/plugins/mqtt-database.ts:68-82 | a `/ph` message changes only the pH buffer, and does so iff `ph` is a number; the buffer stays at most 500 long, ends with the new reading, and on overflow drops exactly its 50 oldest |
| MqttDatabase.IngestHospital | src/server/plugins/mqtt-database.ts:84-109 | another topic changes only the hospital buffer, and does so iff the topic maps to a code and all three fields are defined; the new normalised entry is last, stamped with the newest pH, and on overflow exactly the 100 oldest go |
| MqttDatabase.NormalizeExamples | src/server/plugins/mqtt-database.ts:91-98 | `{electricity: null, water: '', pasien: 5}` normalises to 0, 0, 5 with the last pH; `'abc'` gives NaN and `false` gives 0 |
| MqttDatabase.IngestPreservesValid | src/server/plugins/mqtt-database.ts:61-114 | every message keeps both buffer bounds and keeps only known codes in the hospital buffer |
| MqttDatabase.FlushPlanMeaning | src/server/plugins/mqtt-database.ts:138-171 | no saves for an empty buffer; otherwise one save per distinct code, every buffered code covered, each with the last entry of that code and the newest pH at flush time |
| MqttDatabase.FlushPlanBound | src/server/plugins/mqtt-database.ts:144-159 | a flush of a valid buffer makes at most two saves, one per known code |
| MqttDatabase.AfterFlushMeaning | src/server/plugins/mqtt-database.ts:186-198 | with a success the hospital buffer empties and the pH buffer keeps its newest min(length, 10), so it keeps its latest pH; with none both stay as they were |
| MqttDatabase.FailedHospitalEntriesDropped | src/server/plugins/mqtt-database.ts:189-191 | an entry of a hospital whose save failed is gone once another save in the same flush succeeded |
| MqttDatabase.LastWriteWins | src/server/plugins/mqtt-database.ts:159-171 | three buffered readings for one code produce one save, of the last reading |
| MqttDatabase.EndToEnd | src/server/plugins/mqtt-database.ts:61-198 | a reading on `/ruangMawar`, then pH 7.2, then a flush saves `('rs-a', 250, 40, 12, 7.2)`, empties the hospital buffer and keeps the 7.2 reading |
| SeqUtil.Succeeded | src/server/plugins/mqtt-database.ts:155-184 | the count of saves that did not throw, never more than the number of saves; used for the flush and for the patient sync |
| SeqUtil.SucceededMeaning | src/server/api/patients/sync.post.ts:34-57 | every save counts unless it throws: all count iff none throws, and none counts iff all throw |
| MqttDatabase.SaveGroups | src/server/plugins/mqtt-database.ts:155-184 | the loop makes one save per group, in order, each with the group's latest entry and the newest pH; `savedCount` counts the saves that did not throw and `errorCount` the rest |
| MqttDatabase.IngestionBuffer.constructor | src/server/plugins/mqtt-database.ts:12-25 | both buffers start empty |
| MqttDatabase.IngestionBuffer.OnMessage | src/server/plugins/mqtt-database.ts:61-114 | the handler's push-and-splice leaves exactly the buffers `Ingest` describes, and keeps the bounds |
| MqttDatabase.IngestionBuffer.Flush | src/server/plugins/mqtt-database.ts:135-199 | the saves are the plan of the old buffers; the counts are as in `SaveGroups`; the new buffers are `AfterFlush` of the old ones |
| MqttDatabase.IngestionBuffer.SaveLatest | src/server/plugins/mqtt-database.ts:202-226 | with an empty buffer nothing is saved; otherwise the newest entry is saved with its own pH and popped exactly when its save does not throw; the pH buffer is untouched |
| MqttDatabase.IngestionBuffer.Status | src/server/plugins/mqtt-database.ts:229-239 | both lengths, the last entry of each buffer (reading and timestamp) or `null`, the connection flag, a save interval of 5 minutes and the status text |
| SeqUtil.AppendBounded | src/server/plugins/mqtt-database.ts:101-108 | below the cap the item is appended; at the cap the `drop` oldest are removed and the item is appended; the bound holds and the new item is last |
| SeqUtil.KeepNewest | src/composables/useLocalStorage.ts:38-40 | the result is the newest min(length, n) items, as a suffix |
| Grouping.GroupBy | src/server/plugins/mqtt-database.ts:144-153 | no code twice; each group holds exactly the items with its code, in order, and is non-empty; every item's code has a group |
| Grouping.WithKeyMembers | src/composables/useLocalStorage.ts:112-121 | an item is in a code's group iff it was buffered with that code |
| Grouping.WithKeyMultiset | src/composables/useLocalStorage.ts:112-121 | a code's group holds every copy of each item with that code, and nothing else |
| Grouping.WithKeyAppend | src/composables/useLocalStorage.ts:112-121 | a code's group keeps input order: it distributes over concatenation |
| Grouping.GroupLast | src/server/plugins/mqtt-database.ts:162 | a code's group is empty iff no item has that code, and its last item is the last item of the input with that code |
| Grouping.GroupByLatest | src/server/plugins/mqtt-database.ts:144-162 | the grouping is empty iff the input is, has distinct keys, covers every item, and each group ends with the input's last item of its key |
| BrowserMqtt.Normalized | src/composables/useMqtt.ts:192-195 | an accepted number is kept, and `null` and `''` become 0 |
| BrowserMqtt.Validate | src/composables/useMqtt.ts:187-191 | a message is accepted iff each of the three fields is a number, `null` or `''`, and the reading is the three normalised values |
| BrowserMqtt.NormalizedAgreesWithServer | src/composables/useMqtt.ts:192-195 | where the browser accepts a value, the server's `Number(x \|\| 0)` gives the same number |
| BrowserMqtt.ValidationStricterThanServer | src/composables/useMqtt.ts:187-191 | the browser rejects `'12'`, `true` and a missing field, while the server reads `'12'` as 12 and `true` as 1 |
| BrowserMqtt.BackupPh | src/composables/useMqtt.ts:218 | the backup pH is dropped exactly when the current pH is 0 |
| BrowserMqtt.HospitalMessageMeaning | src/composables/useMqtt.ts:176-227 | an accepted message sets `mqttData` and `lastMessage` to the normalised values; a rejected one only sets the invalid-format error; pH is untouched; a backup is made iff the message is accepted and a hospital id is set, and it holds that id, the normalised readings, the current pH unless it is 0, and the time |
| BrowserMqtt.HospitalParseErrorMeaning | src/composables/useMqtt.ts:244-247 | a payload on the hospital topic that does not parse only sets `Parse error: ` and the reason; no backup |
| BrowserMqtt.OtherTopicMeaning | src/composables/useMqtt.ts:228-247 | on `/ph`, a number replaces `phData`, anything else sets the pH error, and a parse failure sets a parse error; other topics change nothing; no backup either way |
| BrowserMqtt.FirstActive | src/composables/useMqtt.ts:66 | the position of the first active hospital, or none when no hospital is active |
| BrowserMqtt.DefaultHospital | src/composables/useMqtt.ts:66 | the first active hospital when there is one, otherwise the first hospital |
| BrowserMqtt.FallbackDefault | src/composables/useMqtt.ts:74-78 | the fallback list selects `rs-a`, and its topics map to its ids on the server |
| BrowserMqtt.MqttSession.constructor | src/composables/useMqtt.ts:23-51 | disconnected, zero readings, no error, no hospitals, and the empty current hospital |
| BrowserMqtt.MqttSession.CurrentTopic | src/composables/useMqtt.ts:85 | the current hospital's topic |
| BrowserMqtt.MqttSession.Connect | src/composables/useMqtt.ts:103-113 | status `'Connecting...'` with the error cleared and a client created; when `mqtt.connect` throws, status `'Failed'` with the thrown message or `'Connection failed'` |
| BrowserMqtt.MqttSession.OnConnect | src/composables/useMqtt.ts:116-141 | connected, status `'Connected'`, error cleared; while a client exists, the current topic is subscribed, then `/ph` |
| BrowserMqtt.MqttSession.OnSubscribeError | src/composables/useMqtt.ts:123-140 | a failed subscription sets the subscribe error for its topic kind |
| BrowserMqtt.MqttSession.OnError | src/composables/useMqtt.ts:144-149 | not connected, status `'Error'`, error set to the message or `'Connection error'` |
| BrowserMqtt.MqttSession.OnClose | src/composables/useMqtt.ts:152-156 | not connected, status `'Disconnected'`, nothing else changes |
| BrowserMqtt.MqttSession.OnOffline | src/composables/useMqtt.ts:159-163 | not connected, status `'Offline'`, nothing else changes |
| BrowserMqtt.MqttSession.OnReconnect | src/composables/useMqtt.ts:166-169 | only the status changes, to `'Reconnecting...'` |
| BrowserMqtt.MqttSession.OnMessage | src/composables/useMqtt.ts:172-248 | the readout becomes what `HandleMessage` gives; the backup store receives exactly its record, trimmed to the newest 100; connection state and hospitals are untouched |
| BrowserMqtt.MqttSession.Disconnect | src/composables/useMqtt.ts:256-264 | only with a client: the client is ended and dropped, and the status is `'Disconnected'`; without a client nothing changes |
| BrowserMqtt.MqttSession.Publish | src/composables/useMqtt.ts:266-281 | the reading is published on the current topic iff there is a connected client; otherwise the not-connected error is set |
| BrowserMqtt.MqttSession.PublishTestPhData | src/composables/useMqtt.ts:339-358 | a pH is published on `/ph` iff there is a connected client; otherwise the not-connected error is set |
| BrowserMqtt.MqttSession.OnPublishError | src/composables/useMqtt.ts:269-276 | a failed publish sets the publish error for its kind |
| BrowserMqtt.MqttSession.SwitchHospital | src/composables/useMqtt.ts:284-326 | an inactive hospital only sets the "belum tersedia" error; an active one becomes current; while connected the old topic is unsubscribed, the new one subscribed, and `mqttData` is reset to zeros; pH is untouched |
| BrowserMqtt.MqttSession.BeginLoadHospitals | src/composables/useMqtt.ts:54-57 | nothing starts while a load is in flight; otherwise the guard is raised |
| BrowserMqtt.MqttSession.CompleteLoadHospitals | src/composables/useMqtt.ts:58-81 | a successful list replaces the hospitals and, when no id is set, selects the default; a throw installs the two fallbacks and selects the first; the guard is lowered |
| LocalStorage.ReadItems | src/composables/useLocalStorage.ts:15-25 | the stored items, or `[]` without a window, without the key, or when reading fails |
| LocalStorage.ForHospital | src/composables/useLocalStorage.ts:89-91 | exactly the items of that hospital, each as many times as it is stored |
| LocalStorage.ForHospitalAppend | src/composables/useLocalStorage.ts:90 | the filter keeps stored order: it distributes over concatenation |
| LocalStorage.Latest | src/composables/useLocalStorage.ts:94-97 | for a non-empty code, the last item with that code, or `null` when there is none; for no code or `''`, the last item, or `null` for an empty store |
| LocalStorage.AfterStoreMeaning | src/composables/useLocalStorage.ts:28-69 | at most 100 items; nothing is dropped while the total fits; the new items come last in order; only the oldest are dropped |
| LocalStorage.SyncPlanMeaning | src/composables/useLocalStorage.ts:100-141 | no requests for an empty store; otherwise one request per distinct hospital, every hospital covered, each carrying that hospital's last item |
| LocalStorage.CountSynced | src/composables/useLocalStorage.ts:143-146 | the synced count is at most the number of requests |
| LocalStorage.CountErrors | src/composables/useLocalStorage.ts:147-150 | the error count is at most the number of requests |
| LocalStorage.CountsMeaning | src/composables/useLocalStorage.ts:132-150 | a reply with `success` false counts as neither, so the two counts cover every request iff no reply says false; nothing is synced iff no reply says true |
| LocalStorage.NoErrorsMeaning | src/composables/useLocalStorage.ts:147-150 | the error count is 0 iff no request threw |
| LocalStorage.SendRequests | src/composables/useLocalStorage.ts:127-151 | the loop's `syncCount` and `errorCount` are the counts of true replies and of throws |
| LocalStorage.SyncResultMeaning | src/composables/useLocalStorage.ts:155-161 | an empty store gives true and is not cleared; otherwise the result is "some request succeeded", and the store is cleared iff some request succeeded and none threw |
| LocalStorage.AutoSyncIntervalMs | src/composables/useLocalStorage.ts:169-170 | the interval converts back to the minutes given, and is positive for positive minutes |
| LocalStorage.AutoSyncDefault | src/composables/useLocalStorage.ts:169 | the default interval is 600000 ms |
| LocalStorage.BackupStore.constructor | src/composables/useLocalStorage.ts:10-12 | a store over the given window and stored value |
| LocalStorage.BackupStore.GetStoredData | src/composables/useLocalStorage.ts:15-25 | a non-empty result is exactly what is stored, and there is a window |
| LocalStorage.BackupStore.GetStoredDataCount | src/composables/useLocalStorage.ts:84-86 | the count is 0 iff there is no window, nothing readable, or an empty array |
| LocalStorage.BackupStore.GetStoredDataForHospital | src/composables/useLocalStorage.ts:89-91 | exactly the stored items of that hospital, each as many times as it is stored |
| LocalStorage.BackupStore.GetLatestStoredData | src/composables/useLocalStorage.ts:94-97 | `Latest` of the stored items: for a non-empty code, the last stored item with that code; for no code or `''`, the last stored item; `null` iff the selected items are empty |
| LocalStorage.BackupStore.StoreData | src/composables/useLocalStorage.ts:28-47 | with a window, the store becomes the old items plus the new one, trimmed to the newest 100; without one nothing changes |
| LocalStorage.BackupStore.BulkStoreData | src/composables/useLocalStorage.ts:50-69 | an empty batch, or no window, changes nothing; otherwise all items are appended and the newest 100 kept |
| LocalStorage.BackupStore.ClearStoredData | src/composables/useLocalStorage.ts:72-81 | with a window the key is removed, and afterwards the store reads as empty |
| LocalStorage.BackupStore.SyncStoredDataToServer | src/composables/useLocalStorage.ts:100-166 | sends exactly the sync plan of the stored items; returns and clears as `SyncResult` says |
| PatientRecords.ApiUrl | src/server/api/patients/realtime.get.ts:31 | the URL is the fixed prefix, the start day, `/`, and the end day |
| PatientRecords.Breakdown | src/server/api/patients/realtime.get.ts:55 | a filtered list is no longer than the records |
| PatientRecords.BreakdownMembers | src/server/api/patients/realtime.get.ts:53-71 | a record is in a hospital's breakdown iff it is of the day asked for and its department is in the mapping, or, without a mapping, is the hospital's `kdbagian` |
| PatientRecords.BreakdownUnmatched | src/server/api/patients/realtime.get.ts:55 | with neither a mapping nor a `kdbagian`, `item.kdbagian === undefined` holds for no record, so the breakdown is empty |
| PatientRecords.BreakdownAppend | src/server/api/patients/realtime.get.ts:69-71 | the filter keeps record order: it distributes over concatenation |
| PatientRecords.SumJumlahAppend | src/server/api/patients/realtime.get.ts:57 | the `jumlah` sum distributes over concatenation |
| PatientRecords.SumJumlahNonNegative | src/server/api/patients/realtime.get.ts:73 | non-negative counts give a non-negative sum |
| PatientRecords.KdbagianOrEmpty | src/server/api/patients/realtime.get.ts:62 | a set, non-empty `kdbagian` is reported, and otherwise `''` |
| RealtimeEndpoint.TargetDate | src/server/api/patients/realtime.get.ts:22 | the query date when it is given and non-empty, otherwise today |
| RealtimeEndpoint.PatientDataForMeaning | src/server/api/patients/realtime.get.ts:52-84 | the entry names its hospital and the day, `kdbagian` defaults to `''`, the breakdown holds exactly the matching records, the total is their `jumlah` sum, and a hospital with neither mapping nor `kdbagian` gets 0 |
| RealtimeEndpoint.BuildHospitalData | src/server/api/patients/realtime.get.ts:50-84 | one entry per hospital, in hospital order |
| Common.MessageOr | src/server/api/patients/realtime.get.ts:102 | `error.message \|\| fallback`: the message unless it is empty, then the fallback; never empty for a non-empty fallback |
| RealtimeEndpoint.Handle | src/server/api/patients/realtime.get.ts:19-105 | a non-2xx status, a throw, a non-array body or a failing hospital query each give their error; otherwise one entry per hospital for the target day, the URL queries that day as start and end, and `totalRecords` is the number of records |
| SyncEndpoint.TotalFor | src/server/api/patients/sync.post.ts:36-48 | the mapped sum with a mapping, else the exact-`kdbagian` sum when `kdbagian` is set, else 0; filtering a non-array body throws |
| SyncEndpoint.TotalAgreesWithRealtime | src/server/api/patients/sync.post.ts:38-48 | apart from an empty `kdbagian`, the sync total is the realtime total of the same hospital and day |
| SyncEndpoint.EmptyKdbagianDiffers | src/server/api/patients/sync.post.ts:44-48 | for `kdbagian` `''` and a record of department `''`, the sync total is 0 while the realtime total is 3 |
| SyncEndpoint.AttemptFor | src/server/api/patients/sync.post.ts:50-53 | a save is attempted iff the total was computed and is positive or the sync is forced, and it carries that total and today |
| SyncEndpoint.AttemptsMeaning | src/server/api/patients/sync.post.ts:34-57 | the attempted saves are exactly those `AttemptFor` gives for each hospital, and there are at most as many as hospitals |
| SyncEndpoint.SaveHospitals | src/server/api/patients/sync.post.ts:34-57 | the loop attempts exactly `Attempts`, and a failure does not stop later hospitals; `savedCount` counts the saves that did not throw |
| SyncEndpoint.Handle | src/server/api/patients/sync.post.ts:10-79 | `force` must be exactly `'true'`; each failure gives its error and no saves; otherwise the summary reports the number of hospitals, `savedCount` with its message, and the record count (undefined for a non-array body) |
| RealTimePatients.FindHospital | src/composables/useRealTimePatients.ts:27 | the position of the first entry with that code, or none when no entry has it |
| RealTimePatients.GetPatientCount | src/composables/useRealTimePatients.ts:26-29 | the first matching entry's total, and 0 when no entry matches |
| RealTimePatients.GetPatientBreakdown | src/composables/useRealTimePatients.ts:32-35 | the first matching entry's breakdown, and `[]` when no entry matches |
| RealTimePatients.TotalPatientsAppend | src/composables/useRealTimePatients.ts:99-101 | the grand total distributes over concatenation |
| RealTimePatients.CountBoundedByTotal | src/composables/useRealTimePatients.ts:99-101 | with non-negative totals, each hospital's count lies between 0 and the grand total |
| RealTimePatients.EntryBoundedByTotal | src/composables/useRealTimePatients.ts:99-101 | with non-negative totals, every entry is at most the grand total |
| RealTimePatients.IsDataFresh | src/composables/useRealTimePatients.ts:103-108 | never fresh before a first update; otherwise fresh iff fewer than 600000 ms have passed, although the source computes minutes by division |
| RealTimePatients.PatientMonitor.constructor | src/composables/useRealTimePatients.ts:20-23 | no data, not loading, no error, never updated, no interval |
| RealTimePatients.PatientMonitor.BeginFetch | src/composables/useRealTimePatients.ts:38-48 | nothing happens while a fetch is in flight; otherwise the guard is raised, the error cleared, and the day (or today) requested |
| RealTimePatients.PatientMonitor.CompleteFetch | src/composables/useRealTimePatients.ts:50-65 | a good reply replaces the data and stamps the time; a bad one or a throw empties the data and sets the error; `isLoading` ends false every time |
| RealTimePatients.PatientMonitor.StartAutoRefresh | src/composables/useRealTimePatients.ts:71-88 | any running interval is cleared first, a fetch for today starts unless one is in flight, and exactly the new interval runs |
| RealTimePatients.PatientMonitor.StopAutoRefresh | src/composables/useRealTimePatients.ts:90-96 | afterwards no interval runs and the handle is null; nothing else changes |

## Left out

- The MQTT client library. The broker connection, the server plugin's own `'connect'` subscriptions and its `'error'` logging are not modelled. The browser's client calls are recorded as a list of `ClientCall`s.
- `setInterval`/`clearInterval`. The scheduled flush is the `Flush` method, with each call standing for one timer tick. Each auto-refresh tick is a `BeginFetch(None, today)`. `startAutoSync` is modelled only by its interval arithmetic (`AutoSyncIntervalMs`); its timer and cleanup function are not modelled.
- Interleaving across `await`: the flush, the backup sync, the hospital load and the patient fetch each run without interleaving. Entries appended during a flush's awaits, which `length = 0` (mqtt-database.ts:190) would wipe, are therefore not modelled. Neither is a newer entry that the manual save's `pop` removes, nor backup items stored while a sync is in flight.
- `saveSensorDataToDatabase`, `saveRealTimePatientData` and `/api/save-data` are foreign calls. They are the `failing` sets and the `respond` function. src/server/utils/database.ts throws for an unknown or inactive code, and its `ph !== undefined` check lets a `null` pH through. Both fit the `failing` abstraction.
- Floating point: numbers are exact reals.
- `MqttDatabase.NumberOrZero`: reads only plain decimal numerals. Other numeral forms that `Number()` accepts (`' 7 '`, `'1.5'`, `'0x10'`, `'1e3'`) are modelled as NaN.
- `JSON.parse` and `message.toString()` are abstracted into `Inbound`. Object and array field values are not modelled.
- Local storage edge cases: a stored value that parses to a non-array (such as `"null"`), a failing `setItem` (quota) and a failing `removeItem` are not modelled.
- `SyncEndpoint.Handle`: a non-array, non-null body is taken to be an object without `length`. A string body would have a `length`. The `null`-body error text is Node's `TypeError` message.
- A repeated query parameter (which `getQuery` turns into an array) is not modelled.
- `publishTestData` and the random `clientId`: randomness. `publishTestData` is `Publish` with a random reading. `publishTestPhData` takes its random pH as a parameter.
- Vue lifecycle hooks (`onMounted`, `onUnmounted`), `computed`/`readonly` wrappers and console logging. Refs are plain fields.
- Date formatting (`toISOString().split('T')[0]`): today's date is a parameter.
- `Date` values are integer milliseconds.
- Grouping order: `Object.entries` lists integer-like keys (such as `'12'`) first, in ascending order, before the others in insertion order. The model assumes non-numeric hospital codes, so for integer-like codes the order of the flush saves and the sync requests may differ from the model's. A code that names an `Object.prototype` member (such as `constructor` or `toString`) finds an inherited function in `acc[code]`, so `acc[code].push` throws. The server's flush cannot meet such a code, since its buffer holds only `rs-a` and `rs-b`. But the sync's reduce (useLocalStorage.ts:114-117) can, because stored codes are any hospital id. It would then throw, and its catch returns `false` (useLocalStorage.ts:162-165). The model groups such codes like any other.
