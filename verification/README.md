# Hydroponic monitoring: alert debouncer and realtime cache

A Dafny model of the alerting core of a hydroponic monitoring service. Sensor
messages carrying air temperature, humidity and water temperature only update
a latest-reading cache. Alerts are evaluated each time the realtime endpoint
is polled, on the cached readings, once all three are known. Each cached
reading is then classified per metric as Optimal, Warning or Critical
against fixed bands. Every registered push-notification device gets a
message about a metric when that metric's status differs from the one last
sent to it. It is also reminded of a Critical status once 30 minutes or more
have passed since the last message. A reading overwritten before a poll is
never classified, and a cached reading is classified again at every poll.

The model is purely functional. The process-wide device list is a
`seq<Device>` that is passed in and returned. `Date.now()` is an explicit
`now: int` (epoch milliseconds). The push service's token validator is a
function parameter `isPushToken: Token -> bool`. The outgoing batch is a
returned `seq<Message>`.

Modules, one per component:

- `Thresholds` (`thresholds.dfy`): the bands and the classifier `getStatus`.
- `Debounce` (`debounce.dfy`): `shouldSendNotification`, plus decide-and-record
  as one step so that the notification time and the status always change
  together. Also holds runs of the debouncer over a trace of readings.
- `Registry` (`registry.dfy`): devices with one debounce state per metric.
  Covers register, unregister, listing and reset.
- `Monitor` (`monitor.dfy`): `monitorAndNotify`, which visits every device and
  every metric in source order.
- `Realtime` (`realtime.dfy`): the cache of `src/app/api/realtime/route.ts`.
  Covers the partial merge, the error setter, and the `GET` handler's
  staleness rule, response and alert gate.

A fresh device gets one message per metric on its first reading, three in
all (`Monitor.FirstReadingEndToEnd`: 40, 50, 25). The registry is an ordered
list; registration appends.

## Model

| member | source | states |
|---|---|---|
| Thresholds.ThresholdOf | src/lib/monitoringService.ts:23-36 | the six bands: temperature critical 15-35 and warning 18-30, humidity 35-85 and 40-80, water temperature 18-30 and 20-28; each warning band lies strictly inside its critical band, leaving a Warning margin on both sides |
| Thresholds.CriticalEnclosesWarning | src/lib/monitoringService.ts:23-36 | every reading inside a metric's warning band is inside its critical band |
| Thresholds.GetStatus | src/lib/monitoringService.ts:38-50 | Critical exactly outside the critical band; Warning exactly inside the critical band but outside the warning band; Optimal exactly inside the warning band; never Unknown |
| Thresholds.SeverityGrowsBelow | src/lib/monitoringService.ts:38-50 | lowering a reading below the warning band never makes its status milder |
| Thresholds.SeverityGrowsAbove | src/lib/monitoringService.ts:38-50 | raising a reading above the warning band never makes its status milder |
| Thresholds.BoundariesAreMild | src/lib/monitoringService.ts:23-49 | band edges are on the milder side: for every metric both critical edges are Warning and both warning edges are Optimal; 0.1 beyond either critical edge is Critical |
| Debounce.ShouldSendNotification | src/lib/monitoringService.ts:52-70 | any status change notifies whatever the elapsed time; an unchanged status notifies only when Critical and at least 1800000 ms after the last notification |
| Debounce.Step | src/lib/monitoringService.ts:106-130 | on notification both last time and last status are overwritten, otherwise neither; afterwards the recorded status is always the observed one; a Critical status always leaves a notification younger than the interval |
| Debounce.RunRecordsLastStatus | src/lib/monitoringService.ts:52-70 | after any run the recorded status is the last observed status |
| Debounce.RunNeverSilentOnCritical | src/lib/monitoringService.ts:65-67 | no silence: a run ending on Critical ends with a notification less than 30 minutes old |
| Debounce.SustainedCriticalIsSpaced | src/lib/monitoringService.ts:21-69 | no storm: while a metric stays Critical, successive notifications are at least 30 minutes apart |
| Debounce.EveryChangeNotifies | src/lib/monitoringService.ts:61-63 | a run notifies at least as often as the status changes |
| Debounce.NonCriticalNotifiesOnlyOnChanges | src/lib/monitoringService.ts:61-69 | without a Critical reading the run notifies exactly once per status change: sustained Warning or Optimal is never repeated |
| Debounce.ReAlertCadence | src/lib/monitoringService.ts:65-67 | a repeated Critical is suppressed 10 minutes later and re-sent 31 minutes later |
| Debounce.TransitionsAreNeverSuppressed | src/lib/monitoringService.ts:61-63 | from any state, Warning, Critical, Warning notifies at the Critical and the second Warning reading, and at the first Warning reading exactly when Warning was not already recorded |
| Registry.Fresh | src/lib/monitoringService.ts:201-213 | a new device has time 0 and status Unknown for every metric |
| Registry.GetRegisteredDevices | src/lib/monitoringService.ts:225-227 | the tokens in registry order; a token is listed exactly when some device carries it |
| Registry.RegisterDevice | src/lib/monitoringService.ts:189-217 | reports success exactly for a valid token; invalid or already present leaves the registry unchanged; otherwise appends one fresh device; token uniqueness is preserved |
| Registry.RegisterIsIdempotent | src/lib/monitoringService.ts:195-199 | registering the same token a second time returns the same result and changes nothing |
| Registry.Without | src/lib/monitoringService.ts:221 | keeps exactly the devices with another token, shrinking exactly when the token was present |
| Registry.WithoutKeepsUnique | src/lib/monitoringService.ts:221 | filtering a registry with unique tokens keeps them unique |
| Registry.UnregisterDevice | src/lib/monitoringService.ts:219-223 | reports true exactly when the token was registered; afterwards the token is absent and every other device is kept; unchanged when absent |
| Registry.UnregisterRemovesAt | src/lib/monitoringService.ts:219-223 | with unique tokens, unregistering removes exactly the one device and keeps the others in order |
| Registry.RegisterThenUnregister | src/lib/monitoringService.ts:189-223 | registering a new valid token and unregistering it returns true and restores the registry |
| Registry.ResetAllNotificationStates | src/lib/monitoringService.ts:229-243 | keeps the token sequence and resets every metric of every device to time 0 and Unknown |
| Registry.ResetAllIsIdempotent | src/lib/monitoringService.ts:229-243 | a second reset changes nothing and a reset keeps tokens unique |
| Monitor.KindOf | src/lib/monitoringService.ts:107-114 | the alarm wording is chosen exactly for Critical; the recovery wording is used for every other status, Warning included |
| Monitor.Notice | src/lib/monitoringService.ts:108-127 | a message goes to the device's token and carries the metric, its reading, its status and the matching wording |
| Monitor.CheckMetric | src/lib/monitoringService.ts:105-130 | when the debouncer notifies, one message to the device and the metric's time and status both become now and the observed status; otherwise no message and the device unchanged; the token and the other metrics are never touched |
| Monitor.MonitorDevice | src/lib/monitoringService.ts:105-180 | visiting the three metrics in turn equals deciding each from the device's state before the reading; messages come in temperature, humidity, water temperature order |
| Monitor.DeviceBatch | src/lib/monitoringService.ts:105-180 | a device's visit queues at most three messages, all addressed to that device, each carrying the reading's value, its classification and the matching wording |
| Monitor.DeviceNotifies | src/lib/monitoringService.ts:105-180 | a device's visit queues a message about a metric exactly when the message goes to that device and the debouncer notifies for that metric |
| Monitor.Visited | src/lib/monitoringService.ts:98-180 | a device whose token the push service rejects is left exactly as it was; an accepted device ends with every metric state equal to the debouncer's decision |
| Monitor.Own | src/lib/monitoringService.ts:98-180 | the messages for one device number at most three and all go to that device's accepted token, faithful to the reading |
| Monitor.OwnNotifies | src/lib/monitoringService.ts:98-180 | one device's messages are about a metric exactly when its token is accepted and the debouncer notifies |
| Monitor.MonitorAndNotify | src/lib/monitoringService.ts:88-181 | every device is replaced, in place and in order, by its visited form: a rejected token is untouched, an accepted one takes the debouncer's decisions; every message goes to an accepted registered token and describes the reading; at most 3 times the number of devices in total, none without devices |
| Monitor.NotifiesCons | src/lib/monitoringService.ts:98-181 | a token is notified about a metric when the first device is that token and is alerted, or the remaining devices' batch notifies it |
| Monitor.ReadingKeepsRegistry | src/lib/monitoringService.ts:98-181 | a reading keeps the listed tokens and their uniqueness |
| Monitor.NotifiedIffDecided | src/lib/monitoringService.ts:98-181 | with unique tokens a device gets a message about a metric exactly when its token is valid and the debouncer notifies |
| Monitor.BatchForDevice | src/lib/monitoringService.ts:98-181 | with unique tokens, the messages sent to a device are exactly its own visit's messages in metric order: one per metric the debouncer notifies about, at most three, none for a rejected token |
| Monitor.FreshDeviceGetsThreeMessages | src/lib/monitoringService.ts:105-180 | a device in the never-notified state gets exactly three messages, one per metric, in order |
| Monitor.FreshRegistryGetsThreePerDevice | src/lib/monitoringService.ts:98-181 | a registry of valid never-notified devices gets exactly three messages per device |
| Monitor.ResetThenReadingNotifiesAll | src/lib/monitoringService.ts:229-243 | after a reset the next reading sends three messages to every valid device, whatever was sent before |
| Monitor.RevisitDecision | src/lib/monitoringService.ts:52-70 | after a visit, the same reading notifies again only for a Critical metric and never at the same instant |
| Monitor.RepeatedVisitOnlyReAlertsCritical | src/lib/monitoringService.ts:105-180 | revisiting a device with the same reading sends only Critical messages; at the same instant it sends nothing and changes nothing |
| Monitor.RepeatedReadingOnlyReAlertsCritical | src/lib/monitoringService.ts:88-181 | repeating a reading through the registry sends only Critical messages |
| Monitor.SameInstantRepeatIsQuiet | src/lib/monitoringService.ts:88-181 | repeating a reading at the same instant sends nothing and leaves the registry unchanged |
| Monitor.FirstReadingEndToEnd | src/lib/monitoringService.ts:105-180 | a fresh device receiving 40, 50, 25 gets a temperature alarm plus humidity and water temperature messages with the recovery wording, and records all three |
| Realtime.UpdateRealtimeData | src/app/api/realtime/route.ts:13-25 | provided readings overwrite, omitted ones are kept; timestamp becomes now, connected true, error cleared |
| Realtime.SetMqttError | src/app/api/realtime/route.ts:27-30 | disconnected with the error kept; readings and timestamp unchanged |
| Realtime.Get | src/app/api/realtime/route.ts:32-66 | a timestamp 30000 ms or more old clears connected; otherwise connected is untouched; alerts run on the cached triple exactly when all three readings are known, else nothing changes; unknown readings are reported as 0; the response id is the poll time |
| Realtime.CompleteIsStable | src/app/api/realtime/route.ts:13-40 | once all three readings are known, updates, errors and polls keep them known |
| Realtime.UpdateClearsError | src/app/api/realtime/route.ts:13-30 | a sensor message after an error gives the same cache as if the error had not happened |
| Realtime.UpdateIsIdempotent | src/app/api/realtime/route.ts:13-25 | delivering the same sensor message twice equals delivering it once |
| Realtime.FreshnessWindow | src/app/api/realtime/route.ts:22-40 | a poll after a sensor message reports connected exactly when less than 30000 ms have passed |
| Realtime.PartialMessageUsesCachedValues | src/app/api/realtime/route.ts:13-64 | a message with only the air readings still triggers alerts, using the cached water temperature |
| Realtime.IncompleteCacheNeverAlerts | src/app/api/realtime/route.ts:13-64 | while the water temperature has never arrived, a message without it keeps the cache incomplete and the next poll sends nothing and leaves the registry alone, whatever the cache held |
| Realtime.StaleCacheStillAlerts | src/app/api/realtime/route.ts:34-64 | for any registry, a poll that marks a complete cache disconnected reports disconnected and still dispatches exactly as on the cached readings |

## Left out

- Push delivery (`sendPushNotifications`, chunking, `sendPushNotificationsAsync`, the per-chunk error logging) is a foreign network API. The batch is returned instead of sent.
- Message text is not modelled. The emoji titles, the `toFixed(1)` body formatting, units, `sound` and `priority` are reduced to a `Kind` tag (alarm or recovery) plus the metric, value and status.
- `Date.now()` and `new Date()` are replaced by the `now` parameter. The separate clock reads at monitoringService.ts:57 and :128 are assumed to return the same value.
- Timestamps are kept as epoch milliseconds, not ISO strings. The response `id` is `now` as a number, not its decimal string.
- `Expo.isExpoPushToken` is the parameter `isPushToken`. Its format rules belong to the push SDK.
- Readings are `real`. NaN, infinities and float rounding are out of scope. Without NaN, `value || 0` in `GET` equals "the value, or 0 when null".
- The 500 error branch of `GET` is not modelled. Nothing in the modelled logic throws.
- Logging (`console.log`, `console.error`) is not modelled.
- Concurrency is not modelled. Each operation is one atomic step on the state it is given, as in a single-threaded event loop.
- The MQTT clients, topic routing, SSE fan-out, MySQL routes, the register-device HTTP route and the UI are outside this core. They are not part of this model.
