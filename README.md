# Heating thermostat accessory of the climate-controller plugin

This project models the `HeatingThermostat` accessory of the homebridge
climate-controller plugin. The accessory presents one room of a climate
controller as a HomeKit thermostat. It has four parts:

- **Status translators.** They map the device's state words to the accessory's
  heating-state enumerations and back. Any word other than `"Heat"` folds to OFF.
  Any enumeration value other than HEAT folds to `"Off"`.
- **Request/response exchange** (`sendRequest`). Each call opens a fresh socket
  and writes one request on connect. The first reply or socket error settles a
  Promise. A reply of the request's own type resolves with its `status`. A reply
  of another type, or one that does not parse, rejects with
  `INVALID_VALUE_IN_REQUEST`. A socket error rejects with
  `SERVICE_COMMUNICATION_FAILURE`. Events after settlement change nothing.
- **Notification listener** (`createListener`). It holds a long-lived socket. A
  `NotifyStatus` message overwrites five characteristics. Any other payload is
  ignored and the feed stays up. An error ends the socket. A close schedules
  exactly one new listener, which gets a brand-new socket.
- **Read/write hooks** (`onGet*` / `onSet*`). They go through `getStatus` and
  `setControl`. Each write sends only the field it changes.

Modules:

- `Wrappers` holds `Option`, for fields that may be `undefined`.
- `Hap` holds the HomeKit enumerations and status codes the accessory uses.
- `Translate` holds the three translators.
- `Protocol` holds the wire values and the construction of requests.
- `Net` holds a socket reduced to its endpoint and its ended/closed flags.
- `Exchange` holds reply classification, the settle-once rule as a function of
  the event history, and the `RequestExchange` class.
- `Accessory` holds the listener's effect on the characteristics, the read and
  write hooks, and the `HeatingThermostat` class.

Two kinds of state change in place, and both are classes.
`Exchange.RequestExchange` keeps the Promise's outcome. Its invariant ties that
outcome to `FirstSettlement` of the events handled so far.
`Accessory.HeatingThermostat` keeps the five characteristic fields, the
listener socket and the pending restart count. Its invariant ties the
characteristics to `ApplyData` of every payload received. The lemmas about
`FirstSettlement` and `ApplyData` state what the source promises about its
event streams.

Temperatures and humidity are `real`. The source only copies them and never
computes with them.

Some points about the code's behaviour:

- The code rejects a malformed reply and a mistyped reply with the same
  `INVALID_VALUE_IN_REQUEST`. It has no separate "malformed message" error.
- The code has no timeout on an exchange.
- The code calls `end()` on every `data` and `error` event. It does not end the
  socket only once.
- The listener's `error` handler only ends the socket. The reconnect comes from
  the `close` event that follows.
- There is no room-configuration coordinator in the code, so none is modelled.

## Model

| member | source | states |
|---|---|---|
| Translate.ToCurrentState | src/accessory.ts:210-214 | the result is HEAT exactly when the word is "Heat"; every other word gives OFF; the result is one of the two allowed values |
| Translate.ToTargetState | src/accessory.ts:216-220 | the result is HEAT exactly when the word is "Heat"; every other word gives OFF; the result is one of the two allowed values |
| Translate.FromTargetState | src/accessory.ts:222-226 | the result is "Heat" exactly when the value is HEAT; every other value, COOL and AUTO included, gives "Off" |
| Translate.TargetStateRoundTrip | src/accessory.ts:216-226 | for OFF and HEAT, translating to the device word and back gives the value itself |
| Translate.TargetStateFoldsToOff | src/accessory.ts:222-226 | COOL and AUTO are sent as "Off" and read back as OFF |
| Translate.TargetWordRoundTrip | src/accessory.ts:216-226 | for the words "Heat" and "Off", translating to the enumeration and back gives the word itself |
| Translate.TranslatorsAgree | src/accessory.ts:210-220 | the current-state and target-state translators read the same words as heating |
| Protocol.BuildRequest | src/accessory.ts:178-182 | the request's type is the given type; each target field is present exactly when the target and that field are present, and then it equals the target's field |
| Protocol.GetStatusRequest | src/accessory.ts:163-166 | getStatus sends a GetStatus request with neither target field, so only "type" is serialised |
| Protocol.SetControlRequest | src/accessory.ts:168-171 | setControl sends a SetControl request whose target fields are exactly the given target's |
| Protocol.SetTargetTemperatureRequest | src/accessory.ts:129-135 | onSetTargetTemperature sends SetControl with the temperature and no state; only "type" and "target_temperature" are serialised |
| Protocol.SetTargetStateRequest | src/accessory.ts:149-155 | onSetTargetState sends SetControl with the translated state word and no temperature; only "type" and "target_state" are serialised |
| Protocol.SetTargetStateRoundTrip | src/accessory.ts:149-155 | for OFF and HEAT, the word sent reads back, through toTargetState, as the state that was set |
| Exchange.Classify | src/accessory.ts:188-199 | a reply resolves with its status if and only if it parsed and its type equals the request type; a mismatch or a parse failure rejects with INVALID_VALUE_IN_REQUEST |
| Exchange.Settlement | src/accessory.ts:177-206 | the connect callback settles nothing; a data event settles by classification; a socket error settles as SERVICE_COMMUNICATION_FAILURE |
| Exchange.FirstSettlementAppend | src/accessory.ts:174-206 | once the Promise is settled, later events never change its outcome; while it is pending, the later events decide it |
| Exchange.FirstSettlementIsFirst | src/accessory.ts:188-206 | the outcome is the settlement of the first data or error event |
| Exchange.SettledIffNonConnectEvent | src/accessory.ts:174-206 | the Promise is settled exactly when some data or error event has arrived |
| Exchange.FirstSettlementStep | src/accessory.ts:177-206 | one more event leaves a settled outcome alone or settles a pending one by that event; only a connect callback adds a written request |
| Exchange.RequestExchange.constructor | src/accessory.ts:173-177 | sendRequest opens a fresh socket to the device's host and port; nothing is written and the Promise is pending |
| Exchange.RequestExchange.OnConnect | src/accessory.ts:177-186 | the connect callback appends the built request to what was written and leaves the outcome alone |
| Exchange.RequestExchange.OnData | src/accessory.ts:188-201 | a reply settles a pending Promise by its classification, leaves a settled one unchanged, and ends the socket |
| Exchange.RequestExchange.OnError | src/accessory.ts:203-206 | a socket error rejects a pending Promise with SERVICE_COMMUNICATION_FAILURE, leaves a settled one unchanged, and ends the socket |
| Net.Socket.constructor | src/accessory.ts:28-30 | a new socket connects to the given host and port, neither ended nor closed |
| Net.Socket.End | src/accessory.ts:55 | end() marks the socket ended and does not close it by itself |
| Accessory.NotifiedStatus | src/accessory.ts:34-38 | a payload carries a status exactly when it parsed, its type is NotifyStatus and it has a status object |
| Accessory.FromStatus | src/accessory.ts:40-44 | the temperatures and humidity are copied unchanged and both state words go through the translators, landing in the allowed values |
| Accessory.OnNotification | src/accessory.ts:32-51 | a NotifyStatus message with a status, while the Thermostat service is present, sets all five characteristics from it; any other message type, a parse failure, a missing status or a missing service changes nothing |
| Accessory.ApplyDataIsLatestSnapshot | src/accessory.ts:32-51 | after any stream of payloads, the characteristics are the translation of the latest status notification, or unchanged if there was none |
| Accessory.ApplyDataWithoutService | src/accessory.ts:37-39 | without the Thermostat service, no payload changes any characteristic |
| Accessory.ApplyDataAppend | src/accessory.ts:32-51 | payloads are handled one after another in arrival order |
| Accessory.ApplyDataIgnoresNoise | src/accessory.ts:35-50 | dropping every payload that is not a status notification leaves the resulting characteristics the same |
| Accessory.SwallowAndContinue | src/accessory.ts:48-50 | a malformed payload in the stream has the same effect as its absence; later messages are still handled |
| Accessory.ApplyDataKeepsValidStates | src/accessory.ts:42-43 | the listener only writes heating states from the allowed values {OFF, HEAT} |
| Accessory.NotificationScenario | src/accessory.ts:40-44 | a notification of 21.5, 20.0, "Heat", "Heat", 45 sets those temperatures, HEAT for both states and that humidity |
| Accessory.ReadStatus | src/accessory.ts:117-161 | a read hook returns a field of the resolved status; a rejection propagates; a resolved reply without a status fails |
| Accessory.OnGetCurrentTemperature | src/accessory.ts:117-121 | the hook returns the status's current temperature; a rejection propagates; a missing status fails |
| Accessory.OnGetTargetTemperature | src/accessory.ts:123-127 | the hook returns the status's target temperature; a rejection propagates; a missing status fails |
| Accessory.OnGetCurrentState | src/accessory.ts:137-141 | the hook returns the translated current state, one of {OFF, HEAT}; a rejection propagates; a missing status fails |
| Accessory.OnGetTargetState | src/accessory.ts:143-147 | the hook returns the translated target state, one of {OFF, HEAT}; a rejection propagates; a missing status fails |
| Accessory.OnGetCurrentHumidity | src/accessory.ts:157-161 | the hook returns the status's humidity; a rejection propagates; a missing status fails |
| Accessory.OnSetCompleted | src/accessory.ts:168-171 | a write hook succeeds on any resolved reply, whatever its status, and propagates a rejection |
| Accessory.ReadHookMatchesReplyType | src/accessory.ts:188-199 | every read hook, whatever field it reads, gets a value exactly when the reply parsed with type GetStatus and carried a status; any reply not of type GetStatus fails as INVALID_VALUE_IN_REQUEST; a GetStatus reply without a status fails as a missing status |
| Accessory.SetTemperatureConnectFailure | src/accessory.ts:129-135 | writing a temperature serialises only that field; a socket error before any reply, after any number of connect callbacks, makes the write fail with SERVICE_COMMUNICATION_FAILURE, whatever follows |
| Accessory.HeatingThermostat.constructor | src/accessory.ts:65-115 | after construction, TargetTemperature is 20.0 and TargetHeatingCoolingState is OFF; both heating states allow only {OFF, HEAT}; units are Celsius; the information service holds firmware, "tmplt.io", "Thermostat", the display name and the serial; one fresh listener socket is open and no restart is pending |
| Accessory.HeatingThermostat.OnListenerData | src/accessory.ts:32-51 | the characteristics become OnNotification of the old ones; the socket and the restart count are untouched; the invariant ties the characteristics to every payload received |
| Accessory.HeatingThermostat.OnListenerError | src/accessory.ts:53-56 | an error ends the current socket and changes no characteristic and no restart count |
| Accessory.HeatingThermostat.OnListenerClose | src/accessory.ts:58-62 | a close schedules exactly one restart and ends the socket; characteristics are unchanged |
| Accessory.HeatingThermostat.OnRestartTimer | src/accessory.ts:60 | the timer creates a fresh socket to the same device, distinct from the closed one, and leaves no restart pending |
| Accessory.HeatingThermostat.GetStatus | src/accessory.ts:163-166 | getStatus starts a fresh exchange to the device's endpoint for the GetStatus request; nothing is written yet, no event has been handled and the Promise is pending |
| Accessory.HeatingThermostat.SetControl | src/accessory.ts:168-171 | setControl starts a fresh exchange for the SetControl request with the given target; nothing is written yet, no event has been handled and the Promise is pending |
| Accessory.HeatingThermostat.OnSetTargetTemperature | src/accessory.ts:129-135 | the hook starts a fresh exchange whose request changes only the temperature; nothing is written yet, no event has been handled and the Promise is pending |
| Accessory.HeatingThermostat.OnSetTargetState | src/accessory.ts:149-155 | the hook starts a fresh exchange whose request changes only the translated state; nothing is written yet, no event has been handled and the Promise is pending |

## Left out

- Socket I/O (connect, write, end on the wire) is not modelled. Socket events are method calls: `OnConnect`, `OnData`, `OnError` for an exchange, and `OnListenerData`, `OnListenerError`, `OnListenerClose` for the listener.
- `JSON.parse` and `JSON.stringify` are foreign calls. A parse is modelled as `Malformed` or a decoded `Message`. Serialisation is modelled only as the set of keys it writes, `WireFields`, because `JSON.stringify` drops `undefined` fields.
- Status fields that are missing or have the wrong JSON type are not modelled. A status is either absent or a complete `DeviceStatus`.
- The HomeKit framework plumbing is not modelled: `getService`/`addService`, `onGet`/`onSet` registration and `HapStatusError` construction. The numeric `setProps` bounds and steps (0..40 and 16..24 in steps of 0.1) are also left out, because the framework enforces them.
- `OnListenerData` always passes "service present". `registerHandlers` always adds the Thermostat service, so the class cannot lose it. The missing-service branch is covered on the pure function `OnNotification` and by `ApplyDataWithoutService`.
- Promises, `async`/`await` and the 5000 ms `setTimeout` are not modelled as time. The 5000 ms delay is not represented. A scheduled restart is a count in `pendingRestarts`, and the timer firing is the call `OnRestartTimer`.
- Accessory.HeatingThermostat.OnListenerClose: requires that the current socket has not closed yet, because a socket emits `close` only once. Events on sockets the listener has already replaced are not modelled.
- Accessory.HeatingThermostat.OnSetTargetTemperature: takes a number. The `Number(...)` coercion of an arbitrary characteristic value is not modelled.
- Translate.FromTargetState: takes a TargetHeatingCoolingState. Non-numeric characteristic values, which the framework rejects against `validValues` first, are not modelled.
- Floating point is not modelled. Temperatures and humidity are `real` and are only copied.
- Logging is left out throughout.
- The values of CurrentTemperature, CurrentHeatingCoolingState and CurrentRelativeHumidity before the first notification belong to the framework. They are constructor parameters.
- src/platform.ts, src/index.ts and @types/bonjour-hap.d.ts hold only plugin registration, a log line and a type declaration, so they are not modelled.
