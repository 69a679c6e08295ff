# Geofence plugin: transition engine model

A Dafny model of the part of the Cordova geofence plugin that decides what
happens when a device crosses a geofence. It covers both platforms.

- **iOS** (`src/ios/GeofencePlugin.swift`)
  - `GeoNotificationManager`: adding, removing and snoozing fences, the
    permission check, `handleTransition` with its snooze, time-window and
    frequency gates, the polling state machine of `checkTransition`, and
    the region and notification-action callbacks.
  - `GeoNotificationStore`: the SQLite table of JSON records, keyed by fence
    id.
- **Android**
  - `ReceiveTransitionsIntentService.onHandleIntent`: one geofencing event
    turned into notifications, the `onTransitionReceived` call, the
    broadcast and the webhook requests.
  - `GeoNotification`: the record, `toGeofence` and the null case of
    `fromJson`.

Layout:

- `wrappers.dfy` (`Wrappers`): `Option`.
- `ios_records.dfy` (`GeoRecords`): the iOS fence record (the fields the
  engine reads from the stored JSON), the monitored region and the side
  effects the manager causes.
- `ios_store.dfy` (`FenceStore`): the table as a `map` from id to record,
  pure definitions of upsert and of the throttle stamp, and the
  `GeoNotificationStore` class proved against them.
- `ios_engine.dfy` (`TransitionEngine`): the gates and the transition
  logic as functions of the table, the snooze table and the time.
  `HandledTransition` specifies `handleTransition`. `CheckStep` and
  `CheckAll` specify one iteration and the whole loop of
  `checkTransition`.
- `ios_manager.dfy` (`GeofenceManager`): the `GeoNotificationManager`
  class. Its fields are the store, `snoozedFences`, `isActive`, the
  platform's monitored regions and an effect log. Each method is proved
  against the engine's functions.
- `android_text.dfy` (`JavaText`): Java `int`/`long` as bounded newtypes,
  and `Integer.toString` with the decimal reading it inverts.
- `android_geonotification.dfy` (`AndroidGeoNotification`): the Android
  record and the `Geofence` it registers.
- `android_receiver.dfy` (`TransitionReceiver`): `onHandleIntent` as an
  ordered output log. The class and its two loops are proved against the
  functions `Found`, `NotificationsOf`, `Posts` and `Handled`.

The time `now` is an integer parameter. Geometry is an input: the set of
fence ids whose circle contains the current fix.

### Behaviours of the code that are easy to get wrong

- **Snooze.** `snoozeFence` stores `NSTimeIntervalSince1970 + duration`, and
  `isSnoozed` compares against the same constant, not against the clock.
  So a fence is snoozed for good once its last snooze had a positive
  duration, and never otherwise (`SnoozeDecidedByDurationSign`).
- **Removing all fences.** `removeAllGeoNotifications` does not clear the
  snooze table.
- **Polling type check.** The polling path reports a transition only when
  the stored type is exactly 1 (entering) or exactly 2 (leaving). A type of
  3 enables both region callbacks but is never reported by polling
  (`BothBitsSilentOnPolling`).
- **isInside always advances.** On polling, `isInside` flips whether or not
  the gates let the transition through. Snooze, the time window and the
  type never hold the state machine back.
- **Second upsert.** A second `addOrUpdate` of the same record takes the
  `update` path and stores the record as given. This replaces the
  `lastTriggered = 0` that the first call's `add` wrote (`UpsertTwice`).
- **Lost throttle stamp.** On polling, the throttle stamp that
  `handleTransition` writes for the crossing fence is overwritten by the
  loop's snapshot row (`PollingLosesThrottleStamp`). The region-callback
  path keeps it (`ThrottleOnRegionPath`).
- **Transition label.** For a transition type other than 1 or 2, the iOS
  webhook says "EXIT" and the Android webhook sends `null`
  (`LabelsDisagreeOnOtherTypes`).

## Model

| member | source | states |
|---|---|---|
| FenceStore.UpsertKeepsIdsUnique | src/ios/GeofencePlugin.swift:682-712 | `addOrUpdate` keeps the id a primary key, adds exactly the record's id and leaves every other row unchanged |
| FenceStore.UpsertThenFind | src/ios/GeofencePlugin.swift:682-702 | after `addOrUpdate` the id is found. An existing row is replaced by the whole record; a new row is the record with top-level `lastTriggered` 0 |
| FenceStore.UpsertTwice | src/ios/GeofencePlugin.swift:682-712 | upserting the same record twice stores exactly that record (the second call updates, so the `lastTriggered = 0` written by `add` is lost) |
| FenceStore.StampOnlyTouchesThrottle | src/ios/GeofencePlugin.swift:714-723 | stamping keeps the ids and the primary key, changes no field but the notification's `lastTriggered`, sets it to `now` in every row with that notification id, and leaves every row whose notification has another id exactly as it was (rows without a notification: see "## Left out") |
| FenceStore.GeoNotificationStore.constructor | src/ios/GeofencePlugin.swift:659-680 | the store holds the table found or created; when none could be opened, every later query fails and every write is a no-op |
| FenceStore.GeoNotificationStore.FindById | src/ios/GeofencePlugin.swift:725-741 | `Some` exactly when the id is stored, and then it is that row, whose id is the key; `None` for a failed query |
| FenceStore.GeoNotificationStore.GetAll | src/ios/GeofencePlugin.swift:743-759 | `None` exactly when the query fails; otherwise every stored row exactly once |
| FenceStore.GeoNotificationStore.AddOrUpdate | src/ios/GeofencePlugin.swift:682-690 | the new table is `Upsert` of the old one (unchanged without a table) |
| FenceStore.GeoNotificationStore.Add | src/ios/GeofencePlugin.swift:692-702 | inserts the record with `lastTriggered` 0 when the id is free; a taken id (a failed INSERT) changes nothing |
| FenceStore.GeoNotificationStore.Update | src/ios/GeofencePlugin.swift:704-712 | replaces the row with that id by the record; an absent id changes nothing |
| FenceStore.GeoNotificationStore.Remove | src/ios/GeofencePlugin.swift:761-767 | the table loses exactly that id; an absent id changes nothing |
| FenceStore.GeoNotificationStore.Clear | src/ios/GeofencePlugin.swift:769-775 | the table is empty |
| FenceStore.GeoNotificationStore.UpdateLastTriggeredByNotificationId | src/ios/GeofencePlugin.swift:714-723 | walking a `getAll` snapshot and rewriting the matching rows leaves exactly `Stamp` of the old table |
| TransitionEngine.SnoozeDecidedByDurationSign | src/ios/GeofencePlugin.swift:540-549 | after `snoozeFence(id, d)` the id is snoozed iff `d > 0`, whatever the time; other ids keep their state |
| TransitionEngine.SnoozedFenceSilentAtAnyTime | src/ios/GeofencePlugin.swift:401-404 | a fence snoozed with a positive duration produces no effect and no table change at any time |
| TransitionEngine.WindowStartInclusiveEndExclusive | src/ios/GeofencePlugin.swift:463-478 | the time window admits its start time and excludes its end time; a record without bounds is always in range |
| TransitionEngine.WindowIsInterval | src/ios/GeofencePlugin.swift:463-478 | every time between two admitted times is admitted |
| TransitionEngine.HandledTransitionGate | src/ios/GeofencePlugin.swift:401-404 | `handleTransition` has any effect iff the id is stored, not snoozed and within its time window; otherwise the table is untouched too |
| TransitionEngine.HandledTransitionEffects | src/ios/GeofencePlugin.swift:405-461 | past the gate: a notification iff the fence has one and the throttle allows it (then it comes first and every row with that notification id is stamped), a webhook iff it has a url, and the bridge event always last |
| TransitionEngine.HandledTransitionOnlyStamps | src/ios/GeofencePlugin.swift:451-461 | `handleTransition` rewrites nothing in the table but throttle stamps |
| TransitionEngine.ThrottleOnRegionPath | src/ios/GeofencePlugin.swift:451-461 | after a notification at `t1`, a second transition at `t2` notifies again iff `t2 >= t1 + frequency` |
| TransitionEngine.CheckStepWritesSnapshot | src/ios/GeofencePlugin.swift:557-573 | one polling step: on a flip the fence's row becomes the snapshot row with the new `isInside`, and other rows change only in their stamps; without a flip nothing happens |
| TransitionEngine.PollingFiresOnlyOnExactType | src/ios/GeofencePlugin.swift:557-573 | a polling step has effects only when entering with type exactly 1 or leaving with type exactly 2 |
| TransitionEngine.PollingSilentWithoutExactTypes | src/ios/GeofencePlugin.swift:551-576 | a whole polling cycle over fences none of whose types is exactly 1 or 2 has no effect |
| TransitionEngine.CheckTransitionTracksContainment | src/ios/GeofencePlugin.swift:551-576 | after a polling cycle every stored fence's `isInside` says whether the fix is inside it, the ids are the same, and no field but `isInside` and throttle stamps changed |
| TransitionEngine.PollingLosesThrottleStamp | src/ios/GeofencePlugin.swift:558-563 | a fence that enters and notifies on the polling path is written back with its old `lastTriggered` |
| TransitionEngine.BothBitsSilentOnPolling | src/ios/GeofencePlugin.swift:312-313 | a type-3 fence enables both region callbacks, yet entering on the polling path flips `isInside` with no effect |
| GeofenceManager.GeoNotificationManager.constructor | src/ios/GeofencePlugin.swift:265-278 | a manager over the persisted table and the monitored regions, with an empty snooze table, inactive |
| GeofenceManager.GeoNotificationManager.Activate | src/ios/GeofencePlugin.swift:58 | `initialize` turns the polling path on |
| GeofenceManager.GeoNotificationManager.Deactivate | src/ios/GeofencePlugin.swift:207-211 | `onAppTerminate` turns the polling path off |
| GeofenceManager.GeoNotificationManager.CheckRequirements | src/ios/GeofencePlugin.swift:321-364 | the errors and warnings are exactly the lists `RequirementErrors` and `RequirementWarnings`, element by element in append order; `ok` iff there is no error |
| GeofenceManager.RequirementErrorsMembers | src/ios/GeofencePlugin.swift:325-360 | each of the four errors is reported iff its capability is missing, in both directions, and nothing else is reported (the two append sites of the notification-permission error at 346 and 359 both count as "notifications denied") |
| GeofenceManager.RequirementErrorsOrdered | src/ios/GeofencePlugin.swift:325-360 | no error is reported twice, and the errors come in the order of their append sites |
| GeofenceManager.RequirementWarningsMembers | src/ios/GeofencePlugin.swift:335-356 | each of the four warnings is reported iff its permission is missing, in both directions, and nothing else is reported |
| GeofenceManager.RequirementWarningsOrdered | src/ios/GeofencePlugin.swift:335-356 | no warning is reported twice, and the warnings come in the order of their append sites |
| GeofenceManager.GeoNotificationManager.AddOrUpdateGeoNotification | src/ios/GeofencePlugin.swift:289-319 | the record is upserted with `isInside` false; its region is monitored with entry/exit flags from bits 0 and 1 of the type |
| GeofenceManager.GeoNotificationManager.GetWatchedGeoNotifications | src/ios/GeofencePlugin.swift:366-368 | every stored record once, or `None` when the query fails |
| GeofenceManager.GeoNotificationManager.SnoozeFence | src/ios/GeofencePlugin.swift:540-542 | the snooze entry is replaced; the id is snoozed afterwards iff the duration is positive |
| GeofenceManager.GeoNotificationManager.RemoveGeoNotification | src/ios/GeofencePlugin.swift:381-390 | the row and the region go, and the id's snooze is reset to "not snoozed" |
| GeofenceManager.GeoNotificationManager.RemoveAllGeoNotifications | src/ios/GeofencePlugin.swift:392-399 | the table and the regions are emptied; the snooze table is kept |
| GeofenceManager.GeoNotificationManager.CanBeTriggered | src/ios/GeofencePlugin.swift:451-461 | allowed iff the throttle allows; when allowed, the table is stamped for the notification id, otherwise unchanged |
| GeofenceManager.GeoNotificationManager.HandleTransition | src/ios/GeofencePlugin.swift:401-449 | the table and the effect log move as `HandledTransition` says; snoozes, the flag and the regions are kept |
| GeofenceManager.GeoNotificationManager.CheckTransition | src/ios/GeofencePlugin.swift:551-576 | walks a snapshot that enumerates the table, reaching `CheckAll`'s table and effects; every fence's `isInside` then matches the fix |
| GeofenceManager.GeoNotificationManager.WalkSnapshot | src/ios/GeofencePlugin.swift:553-574 | the loop over the snapshot reaches exactly `CheckAll` of the rows |
| GeofenceManager.GeoNotificationManager.CheckFence | src/ios/GeofencePlugin.swift:554-573 | one loop iteration reaches exactly `CheckStep` of the row |
| GeofenceManager.GeoNotificationManager.OnLocationUpdate | src/ios/GeofencePlugin.swift:578-583 | while active with a readable table, the table and the effect log move exactly as `CheckAll` over a snapshot enumerating the old table says, and every fence's `isInside` then matches the fix; inactive, or without a table, nothing changes |
| GeofenceManager.GeoNotificationManager.OnEnterRegion | src/ios/GeofencePlugin.swift:593-598 | an OS entry callback handles transition 1 only while inactive; while active it changes nothing |
| GeofenceManager.GeoNotificationManager.OnExitRegion | src/ios/GeofencePlugin.swift:600-605 | an OS exit callback handles transition 2 only while inactive; while active it changes nothing |
| GeofenceManager.GeoNotificationManager.OnNotificationAction | src/ios/GeofencePlugin.swift:633-655 | "Snooze" snoozes the request id for 86400 s and "Delete" for 300 s; both leave it snoozed; a tap with data publishes it; other actions change nothing |
| JavaText.NatToString | src/android/ReceiveTransitionsIntentService.java:65 | the decimal digits of a natural: non-empty, all digits, a leading zero only for 0, one digit iff below 10 |
| JavaText.IntToString | src/android/ReceiveTransitionsIntentService.java:65 | `Integer.toString`: a minus sign iff negative, digits after it |
| JavaText.NatToStringRoundTrip | src/android/ReceiveTransitionsIntentService.java:65 | reading the digits back gives the number |
| JavaText.IntToStringRoundTrip | src/android/ReceiveTransitionsIntentService.java:65 | reading `Integer.toString(n)` back gives `n` |
| JavaText.IntToStringInjective | src/android/ReceiveTransitionsIntentService.java:65 | two codes render alike only when equal |
| AndroidGeoNotification.ToGeofence | src/android/GeoNotification.java:22-29 | the request id, types and circle are copied; the loitering delay is never 0 and is kept when nonzero; the expiration is `Long.MAX_VALUE` |
| AndroidGeoNotification.ZeroLoiteringIsOneHour | src/android/GeoNotification.java:27 | a 0 delay registers the same geofence as one hour (3 600 000 ms) |
| AndroidGeoNotification.ToGeofenceDependsOnlyOnRegion | src/android/GeoNotification.java:22-29 | the registered geofence ignores url, authorization and notification |
| AndroidGeoNotification.FromJson | src/android/GeoNotification.java:35-38 | `null` text gives `null`; any other text gives what the JSON reader produces |
| TransitionReceiver.EventError | src/android/ReceiveTransitionsIntentService.java:62-99 | no error extra iff the event has no error and its transition is ENTER or EXIT |
| TransitionReceiver.Found | src/android/ReceiveTransitionsIntentService.java:75-89 | at most one record per triggering id, each with the event's transition type |
| TransitionReceiver.NotificationsOf | src/android/ReceiveTransitionsIntentService.java:82-85 | at most one notification per found fence, and only notifications |
| TransitionReceiver.TransitionLabel | src/android/ReceiveTransitionsIntentService.java:127-130 | "ENTER" iff type 1, "EXIT" iff type 2, `null` iff neither |
| TransitionReceiver.Posts | src/android/ReceiveTransitionsIntentService.java:104-148 | at most one webhook attempt per triggering id, and only webhook attempts |
| TransitionReceiver.ErrorMessageNamesCode | src/android/ReceiveTransitionsIntentService.java:62-99 | equal error messages come from the same branch with the same code or transition |
| TransitionReceiver.FoundMembers | src/android/ReceiveTransitionsIntentService.java:75-89 | a record is reported iff some triggering id is stored with it (type set to the event's) |
| TransitionReceiver.FoundEmptyIff | src/android/ReceiveTransitionsIntentService.java:75-94 | the list is empty iff no triggering id is stored |
| TransitionReceiver.FoundConcat | src/android/ReceiveTransitionsIntentService.java:77-89 | the lookup loop distributes over concatenated trigger lists: order is kept |
| TransitionReceiver.NotificationsOfMembers | src/android/ReceiveTransitionsIntentService.java:82-85 | a notification is shown iff some found fence carries it |
| TransitionReceiver.NotificationsOfConcat | src/android/ReceiveTransitionsIntentService.java:77-89 | notifications come out in the found fences' order |
| TransitionReceiver.PostsIndependentOfFailures | src/android/ReceiveTransitionsIntentService.java:113-145 | a caught send failure does not stop the loop: the same requests go out, in order, whichever sends fail |
| TransitionReceiver.PostsMembers | src/android/ReceiveTransitionsIntentService.java:104-148 | a request goes out iff some triggering id is stored with a url; it is built from that record, and it failed iff that send threw |
| TransitionReceiver.AuthorizationHeaderIffPresent | src/android/ReceiveTransitionsIntentService.java:118-125 | a POST to the record's url; `Authorization` is sent iff the record has one; the JSON content type always |
| TransitionReceiver.WebhookBodyCarriesIdWithStraySpace | src/android/ReceiveTransitionsIntentService.java:135 | the body starts with the fixed head and the fence id, followed by a space before the closing quote |
| TransitionReceiver.LabelsDisagreeOnOtherTypes | src/android/ReceiveTransitionsIntentService.java:127-130 | for a type other than 1 or 2 Android sends `null` where iOS sends "EXIT" |
| TransitionReceiver.TransitionDataIff | src/android/ReceiveTransitionsIntentService.java:91-94 | `transitionData` is put iff the event is a usable transition with a stored triggering fence |
| TransitionReceiver.HandledShape | src/android/ReceiveTransitionsIntentService.java:50-150 | exactly one broadcast; before it only notifications and the `onTransitionReceived` call; after it exactly the webhook loop |
| TransitionReceiver.ReceiveTransitionsIntentService.constructor | src/android/ReceiveTransitionsIntentService.java:34-39 | a service over the given store with no outputs yet |
| TransitionReceiver.ReceiveTransitionsIntentService.OnHandleIntent | src/android/ReceiveTransitionsIntentService.java:50-150 | the output log grows by exactly `Handled` of the event |
| TransitionReceiver.ReceiveTransitionsIntentService.NotifyTriggered | src/android/ReceiveTransitionsIntentService.java:75-89 | the first loop returns exactly `Found` and logs exactly its notifications |
| TransitionReceiver.ReceiveTransitionsIntentService.PostWebhooks | src/android/ReceiveTransitionsIntentService.java:104-148 | the second loop logs exactly `Posts` |

## Left out

- Geometry: distance from the fix to a fence centre is not computed. Which fences contain the fix is an input set of ids.
- Storage and JSON: SQLite and the JSON text of records are not modelled. The iOS table is a map of records; Android's `GeoNotificationStore` is a map given to the service. `toJson` and the Gson serialisation of `transitionData` are left out; the extra carries the list itself.
- Fence record fields: only the fields the engine reads are modelled. Start and end dates arrive already parsed (`None` for a missing or unparseable date), so date parsing is left out.
- Time: `now` is an integer, so sub-second precision is left out. The snooze constant `NSTimeIntervalSince1970` is kept exactly.
- Dispatch queues, threads and the ordering they impose are not modelled; every operation runs to completion.
- Notification presentation, sounds, vibration, `BeepHelper` and `GeoNotificationNotifier` are left out. A notification is an effect carrying its record.
- Network: the webhook is recorded as a request. The iOS `date` field, the Android response code and the 10000/15000 ms timeouts are left out, and so is the webview bridge's JavaScript string.
- Platform: permission prompts, `registerPermissions`, `dismissNotifications`, `GeofenceFaker`, logging and the Cordova command layer are left out. Start and stop of region monitoring are modelled as the `regions` map.
- Android events: `getTriggeringGeofences` may return null for an error event, which would make the second loop throw. The model takes the list as a sequence, so that crash is not captured.
- Crashes: SwiftyJSON force unwraps (`.int!`, a bad URL string) crash the app; the model has no crash state, so these are left out.
- Single failing statements: the iOS store fails only as a whole (no table), never one query at a time. So these cases are not captured:
  - In `FenceStore.GeoNotificationStore.AddOrUpdate`, a failed `findById` sends an existing id to `add`, whose INSERT fails and is only logged, so the update is lost. That includes the `isInside` write-back of `GeofenceManager.GeoNotificationManager.CheckFence`.
  - In `GeofenceManager.GeoNotificationManager.CanBeTriggered`, a failed `getAll` still answers true, and the notification fires without a stamp.
- Transition type text: SwiftyJSON's `.int`, which builds the region flags, is nil for a type stored as the string `"1"`. `.intValue`, which the polling check reads, parses that string. The model keeps the type as a number (`TypeValue`), so the disagreement between the region flags and the polling check for string-typed records is not captured.
- FenceStore.StampOnlyTouchesThrottle: for an empty notification id (a notification without `id`), the source's test `json["notification"]["id"].stringValue == id` also matches every row that has no notification. The model does not match those rows. It assumes that writing `lastTriggered` into a missing notification leaves the row unchanged. Whether SwiftyJSON's setter instead stores a `null` notification is not modelled; such a row would afterwards pass `isExists()` in `handleTransition`.
- FenceStore.GeoNotificationStore.UpdateLastTriggeredByNotificationId: the same gap. For an empty id it rewrites only rows whose notification has the empty id, not the rows without a notification that the source's loop also selects.
- Numbers: Java and Swift doubles are reals. The `float` radius that `Geofence.Builder` keeps is the record's integer radius.
- GeofenceManager.GeoNotificationManager.CanBeTriggered: the source creates a second store object over the same database file; the model uses the manager's own store, which holds the same rows.
- GeofenceManager.GeoNotificationManager.CheckTransition: returns the `getAll` snapshot it walked as a ghost value, because the row order of `SELECT *` is unspecified.
