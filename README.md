# BLERelay core in Dafny

BLERelay is a Bluetooth Low Energy relay. It connects as a central to one
target device, found by its MAC address. It discovers every service and
characteristic of that device. It then advertises itself as a peripheral
that serves a copy of that attribute tree. Every read, write and
subscription on the copy is forwarded to the real device, and notifications
come back the same way.

This project models the deterministic logic under that wiring:

- `Uuid` (`uuid.dfy`): `BaseUUID`, `removeDashes`, `isBaseUUIDDash` and the
  Device Name (0x2A00) test. They implement the Bluetooth Base UUID
  expansion of the Bluetooth Core Specification, Vol 3, Part B,
  section 2.5.1. They are pure functions over `string`, and the regular
  expressions are restated as character predicates.
- `Address` (`address.dfy`): the MAC-address pattern used on the command
  line, the start-up argument check, and the scan filter that compares a
  discovered address with the lower-cased target.
- `Gatt` (`gatt.dfy`): the attribute model. A `RemoteCharacteristic` is a
  class whose fixed uuid and properties come from discovery. Its mutable
  state is its list of `data` listeners. A `data` event is turned into
  pushes to subscribers.
- `Proxy` (`proxy.dfy`): `CopiedCharacteristic`, the mirror of one remote
  characteristic, with its read, write, subscribe and unsubscribe handlers.
- `Mirror` (`mirror.dfy`): the advertising set and the mirror built by
  `act_as_device`, both as loops proved against reference functions.
- `Session` (`session.dfy`): the event handlers of the relay as a class
  `Relay`. These are scan, discover, connect (device-name derivation),
  discovery (Device Name reads, `act_as_device`), the server stack's state
  change, and advertising start. Calls into the two stacks are recorded in
  order in `issued`.

Each callback is one atomic step. The completion that a stack delivers
(error or value) is an input of the handler. The request the handler issues
and the server callback it invokes are its outputs. In the `Relay`, these
are the commands appended to `issued`.

Behaviours of the code that the model keeps as they are:

- `console.assert` in Node.js only prints a message and never throws. So
  `BaseUuid` is total, and the read, write and subscribe handlers go ahead
  whatever the offset and the properties are.
- A failed remote read or write returns without invoking the server
  callback at all. In the model, `callback` is `None`.
- The subscribe completion is only logged. The forwarder is registered
  even if the remote subscribe failed. Each subscribe adds one more
  forwarder, so two subscribes without an unsubscribe forward every
  notification twice. `Proxy.SubscribeThenNotify` states this.
- The scan filter and the Device Name test compare case-sensitively
  against lower-case strings. An upper-case discovered address never
  matches, and neither does the short form "2A00".
- `ADD_DEVICE_NAME_COPY` is the constant `false` at line 11. The model
  keeps it as the relay's `addNameCopy` flag, so both settings are covered.
- The advertising filter only recognises the dashed 36-character Base-UUID
  form.

## Model

| member | source | states |
|---|---|---|
| `Uuid.LowerStr` | ble_relay.js:18 | `toLowerCase` keeps the length and leaves no upper-case letter |
| `Uuid.BaseUuid` | ble_relay.js:14-19 | the expansion is `\|X\| + 28` long (32 for a 4-character X): "0000", then X lower-cased, then "00001000800000805f9b34fb"; the whole result is lower case |
| `Uuid.BaseUuidCaseInsensitive` | ble_relay.js:14-19 | two short forms expand to the same UUID if and only if they are equal ignoring case |
| `Uuid.RemoveDashes` | ble_relay.js:21-23 | the result contains no '-' and is no longer than the input |
| `Uuid.RemoveDashesOfDashFree` | ble_relay.js:21-23 | a string without '-' is returned unchanged |
| `Uuid.RemoveDashesIdempotent` | ble_relay.js:21-23 | removing dashes twice is the same as removing them once |
| `Uuid.RemoveDashesConcat` | ble_relay.js:21-23 | removal distributes over concatenation, so the kept characters stay in order |
| `Uuid.RemoveDashesKeepsOthers` | ble_relay.js:21-23 | every character other than '-' occurs in the result exactly as often as in the input |
| `Uuid.LowerRemoveDashesCommute` | ble_relay.js:21-23 | lower-casing and dash removal commute |
| `Uuid.IsBaseUuidDash` | ble_relay.js:25-27 | the `/i` pattern: 36 characters, "0000", four hex digits of either case, then the dashed Base-UUID tail ignoring case; a match has its dashes at positions 8, 13, 18 and 23 |
| `Uuid.DashedIsBaseUuidDash` | ble_relay.js:25-27 | "0000" + any four hex digits (either case) + "-0000-1000-8000-00805f9b34fb" passes the dashed Base-UUID test |
| `Uuid.DashedCanonical` | ble_relay.js:25-27 | for an identifier that passes the test, removing its dashes and lower-casing gives `BaseUuid` of its characters 4..7 |
| `Uuid.ShortAndDashedAgree` | ble_relay.js:14-27 | a 4-hex-digit short form and its dashed form canonicalise to the same 32-character string (e.g. "180A" and "0000180a-0000-1000-8000-00805f9b34fb") |
| `Uuid.BaseUuidIsNotDashed` | ble_relay.js:14-27 | the undashed output of `BaseUuid` never passes the dashed Base-UUID test, for any argument |
| `Uuid.IsDeviceNameUuid` | ble_relay.js:152 | the Device Name test: with dashes removed, the uuid equals "2a00" or `BaseUuid("2A00")` exactly; a match is lower case and 4 or 32 characters long |
| `Uuid.DeviceNameShortForm` | ble_relay.js:152 | "2a00" is recognised as the Device Name characteristic; "2A00" is not |
| `Uuid.DeviceNameExpandedForm` | ble_relay.js:152 | the 32-character expansion of 2A00 is recognised |
| `Uuid.DeviceNameOfDashed` | ble_relay.js:152 | a lower-case identifier in dashed Base-UUID form is recognised if and only if its four hex digits are "2a00" |
| `Uuid.DeviceNameDashedForm` | ble_relay.js:152 | "00002a00-0000-1000-8000-00805f9b34fb" is recognised |
| `Address.ColonOctetsPositions` | ble_relay.js:39 | `(:[a-fA-F0-9]{2}){n}` matches exactly the strings of n three-character groups, each a colon and two hex digits |
| `Address.IsMacAddress` | ble_relay.js:39 | the pattern `^[a-fA-F0-9]{2}(:[a-fA-F0-9]{2}){5}$`; an accepted string is 17 characters long with ':' at position 2 |
| `Address.MacAddressShape` | ble_relay.js:39 | the MAC pattern accepts exactly the 17-character strings with ':' at positions 2, 5, 8, 11, 14 and a hex digit everywhere else |
| `Address.LowerMacAddress` | ble_relay.js:39 | lower-casing an accepted address gives an accepted, lower-case address |
| `Address.ScanMatch` | ble_relay.js:67 | a discovery is accepted when its address equals the lower-cased target, so an accepted address is as long as the target and has no upper-case letter |
| `Address.ScanMatchMeaning` | ble_relay.js:67 | for a valid target, an accepted discovered address is a lower-case MAC address equal to the target up to case; an address with an upper-case letter is rejected |
| `Address.ScanMatchIgnoresTargetCase` | ble_relay.js:67 | a lower-case address is accepted if and only if it equals the target ignoring case |
| `Address.ParseArguments` | ble_relay.js:31-42 | no argument gives the usage error, a first argument that fails the MAC pattern gives the illegal-address error, and otherwise the first argument is the target |
| `Gatt.Dispatch` | ble_relay.js:235-240 | a `data` event yields one push per registered forwarder, in registration order, each to that forwarder's subscriber with the payload unchanged, and no push unless `isNotification` |
| `Gatt.DispatchAppend` | ble_relay.js:235-240 | registering one more forwarder appends exactly its own push to those of every later event |
| `Proxy.CopiedCharacteristic.constructor` | ble_relay.js:182-186 | the copy is bound to its remote characteristic and has the same uuid and properties, as constants |
| `Proxy.CopiedCharacteristic.OnReadRequest` | ble_relay.js:187-201 | one remote read; the server callback is invoked if and only if the read succeeded, with the remote bytes unchanged |
| `Proxy.CopiedCharacteristic.OnWriteRequest` | ble_relay.js:202-218 | one remote write of exactly `data` with the same `withoutResponse`; the success callback is invoked if and only if the remote write had no error |
| `Proxy.CopiedCharacteristic.OnSubscribe` | ble_relay.js:219-241 | one remote subscribe; the remote characteristic's listeners are the old ones plus a forwarder to `updateValueCallback` |
| `Proxy.CopiedCharacteristic.OnUnsubscribe` | ble_relay.js:242-252 | one remote unsubscribe; the remote characteristic is left with no listener, so later data is not forwarded |
| `Proxy.SubscribeThenNotify` | ble_relay.js:219-240 | after one more subscription, a notification reaches the new subscriber once more, after the earlier ones; a non-notification event reaches nobody |
| `Mirror.AdvertisedUuids` | ble_relay.js:272-278 | the advertising set is no longer than the service list and holds no UUID in dashed Base-UUID form |
| `Mirror.AdvertisedUuidsConcat` | ble_relay.js:272-278 | the set of a concatenation is the concatenation of the sets: discovery order is kept |
| `Mirror.AdvertisedUuidsMembers` | ble_relay.js:272-278 | a UUID is advertised if and only if some discovered service has it and it is not in dashed Base-UUID form |
| `Mirror.AdvertisedUuidsOfOne` | ble_relay.js:272-278 | a single service is excluded exactly when its UUID is in dashed Base-UUID form |
| `Mirror.AdvertisingServiceUuids` | ble_relay.js:272-278 | the `forEach`/`push` loop computes exactly `AdvertisedUuids` of the services |
| `Mirror.BuildMirror` | ble_relay.js:302-320 | one `CopiedService` per service, in order, with the same name and uuid, each holding one new `CopiedCharacteristic` per characteristic, in order, bound to it with the same uuid and properties, whatever the flags |
| `Mirror.MirrorsCount` | ble_relay.js:302-320 | a mirror holds exactly as many characteristics as were discovered |
| `Session.DeviceName` | ble_relay.js:99-107 | the name is never empty; it starts with the local name, or with "[UNNAMED]" when the local name is empty; it ends with " - copy" when the flag is set, and its length is exactly that of these parts |
| `Session.DeviceNameKeepsLocalName` | ble_relay.js:99-107 | without the copy flag a non-empty local name is the device name |
| `Session.NameCharacteristics` | ble_relay.js:150-162 | the characteristics read for their name all have the Device Name uuid |
| `Session.NameCharacteristicsConcat` | ble_relay.js:150-162 | the filter of a concatenation is the concatenation of the filters, so the reads keep the order of discovery |
| `Session.NameCharacteristicsOfOne` | ble_relay.js:150-162 | a single characteristic is read exactly when it has the Device Name uuid |
| `Session.NameCharacteristicsMembers` | ble_relay.js:150-162 | a characteristic is read for its name if and only if it was discovered and has the Device Name uuid |
| `Session.DeviceNameReads` | ble_relay.js:150-162 | the `forEach` loop selects exactly `NameCharacteristics` |
| `Session.Relay.constructor` | ble_relay.js:11-42 | the relay starts with a valid target, no device name, no registered services and nothing issued |
| `Session.Relay.OnClientStateChange` | ble_relay.js:54-61 | power-on starts scanning, any other state stops it, nothing else changes |
| `Session.Relay.OnDiscover` | ble_relay.js:63-89 | a non-matching discovery changes nothing; a matching one issues stop-scanning and then exactly one connect |
| `Session.Relay.OnConnect` | ble_relay.js:91-117 | on error nothing changes and no discovery is requested; on success the device name is `DeviceName(localName, flag)` and one full discovery is requested |
| `Session.Relay.OnServicesDiscovered` | ble_relay.js:126-165 | on error nothing changes; on success one read per Device Name characteristic is issued in order, and the advertising set becomes that of the discovered services |
| `Session.Relay.OnServerStateChange` | ble_relay.js:284-291 | once services are registered, power-on starts advertising the current device name with the advertising set, any other state stops advertising |
| `Session.Relay.OnAdvertisingStart` | ble_relay.js:293-322 | on error, or before discovery, nothing is served; otherwise exactly one set-services command is issued, carrying a mirror of the discovered services |

## Left out

- The two Bluetooth stacks themselves (scanning, connecting, discovery, advertising, `setServices`, and the remote read, write, subscribe, unsubscribe and notify). Their calls are outputs and their completions are inputs.
- Asynchrony and event-emitter timing: each callback is one atomic step. A remote request and its completion are fused into the handler that issued it.
- Power states other than on and off of either stack: both are modelled as a boolean "powered on".
- The `disconnect` handler and `process.exit` (lines 119-123), and the exit itself on a bad argument: the model returns the error instead.
- What the read callback of a Device Name characteristic does (lines 153-160): it logs and writes `process.env.BLENO_DEVICE_NAME`. Only the read request is modelled.
- All console output, the `console.debug` override, RSSI, and the hex rendering of payloads. This includes the messages `console.assert` prints.
- The debug-only listeners and `setMaxListeners` (lines 330-343). They add `data` listeners that `removeAllListeners` would also remove.
- `onNotify` and `onIndicate` (lines 253-264): they only call a foreign `notify(true)` or do nothing.
- `Uuid.LowerStr`: lower-cases ASCII letters only. JavaScript's `toLowerCase` also maps other Unicode letters. The identifiers and addresses this core handles are ASCII. Its contract states only the length and that no upper-case letter is left. That each character maps to its own lower-case form is fixed by its definition; no `ensures` states it.
- `Session.Relay.OnConnect`: the local name is a string. The case where the stack reports no local name at all (`undefined`) is not modelled.
- `Session.Relay.OnServicesDiscovered`: a second successful discovery replaces the services the server-stack handlers use. `ble_relay.js` would register a second set of handlers beside the first.
- What happens when the read of a Device Name characteristic fails: the callback goes on to use the missing data, which throws.
- `maxValueSize` and `offset` are accepted and ignored, as `ble_relay.js` does apart from logging them.
